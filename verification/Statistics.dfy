/** The episode statistics: the merged ads, the durations resolved from them, the ad markers and the
    censor windows of the edited timeline, composed as the statistics code does. */
module Statistics {
  import opened Basics
  import opened Sorting
  import opened Windows
  import opened AudioCut
  import opened Timeline
  import CutterMerge

  /** What the statistics start from: the measured length of the cut file if there is one, the
      transcript of the uncut audio, the censor windows and the cutter's settings. */
  datatype Episode = Episode(
    measured: Option<int>,
    transcript: seq<Window>,
    bleeps: seq<Window>,
    minLength: int,
    minSeparation: int)

  function LatestEnd(ws: seq<Window>): (latest: Option<int>)
    ensures latest.None? <==> ws == []
    ensures latest.Some? ==> exists i :: 0 <= i < |ws| && ws[i].end == latest.value
    ensures latest.Some? ==> forall i :: 0 <= i < |ws| ==> ws[i].end <= latest.value
  {
    if ws == [] then None
    else
      var earlier := LatestEnd(ws[..|ws| - 1]);
      var last := ws[|ws| - 1].end;
      Some(if earlier.Some? then Max(earlier.value, last) else last)
  }

  predicate Measured(e: Episode) { e.measured.Some? && e.measured.value > 0 }

  function TranscriptEnd(e: Episode): int {
    var latest := LatestEnd(e.transcript);
    if latest.Some? then latest.value else 0
  }

  /** The measured length, or the latest end of a censor window in place of one. */
  function CutDuration(e: Episode): int {
    var cut := if e.measured.Some? then e.measured.value else 0;
    var latest := LatestEnd(e.bleeps);
    if cut <= 0 && latest.Some? then latest.value else cut
  }

  /** The length of the uncut audio, given the total length of the ads. */
  function OriginalDuration(e: Episode, adTime: int): int {
    if Measured(e) then Max(CutDuration(e) + adTime, TranscriptEnd(e)) else Max(TranscriptEnd(e), CutDuration(e))
  }

  /** The latest end of the windows, or something else where there are none. */
  ghost predicate IsLatest(x: int, ws: seq<Window>, otherwise: int) {
    if ws == [] then x == otherwise
    else (exists i :: 0 <= i < |ws| && ws[i].end == x) && forall i :: 0 <= i < |ws| ==> ws[i].end <= x
  }

  /** The length of the uncut audio: the measured cut and the ads, or the transcript if that is longer. Without a
      positive measured length it is the transcript, or the censor windows if they end later. */
  lemma {:induction false} DurationIs(e: Episode, adTime: int, transcriptEnd: int, bleepEnd: int)
    requires IsLatest(transcriptEnd, e.transcript, 0)
    requires IsLatest(bleepEnd, e.bleeps, if e.measured.Some? then e.measured.value else 0)
    ensures OriginalDuration(e, adTime)
         == if e.measured.Some? && e.measured.value > 0 then Max(e.measured.value + adTime, transcriptEnd)
            else Max(transcriptEnd, bleepEnd)
  {
    LatestIs(e.transcript, transcriptEnd, 0);
    LatestIs(e.bleeps, bleepEnd, if e.measured.Some? then e.measured.value else 0);
  }

  lemma {:induction false} LatestIs(ws: seq<Window>, x: int, otherwise: int)
    requires IsLatest(x, ws, otherwise)
    ensures ws != [] ==> LatestEnd(ws) == Some(x)
  {
    if ws != [] {
      var i :| 0 <= i < |ws| && ws[i].end == x;
      var j :| 0 <= j < |ws| && ws[j].end == LatestEnd(ws).value;
    }
  }

  function AdTime(ads: seq<Window>): int { TotalLength(Proper(ads)) }

  /** The length against which the ads are merged, resolved from the ads before merging. */
  function SettingsOf(e: Episode, ads: seq<Window>): CutterMerge.Settings {
    CutterMerge.Settings(OriginalDuration(e, AdTime(ads)), e.minLength, e.minSeparation)
  }

  function AdBlocks(e: Episode, ads: seq<Window>): seq<Window> {
    if ads == [] then [] else CutterMerge.Merge(ads, SettingsOf(e, ads))
  }

  /** The length resolved again, from the merged ads. */
  function Original(e: Episode, ads: seq<Window>): int {
    OriginalDuration(e, AdTime(AdBlocks(e, ads)))
  }

  function EditedDuration(e: Episode, ads: seq<Window>): int {
    Max(Original(e, ads) - AdTime(AdBlocks(e, ads)), 0)
  }

  method SumNonempty(ws: seq<Window>) returns (total: int)
    ensures total == AdTime(ws)
  {
    total := 0;
    for i := 0 to |ws|
      invariant total == AdTime(ws[..i])
    {
      assert ws[..i + 1][..i] == ws[..i];
      if ws[i].end > ws[i].start {
        TotalLengthAppend(Proper(ws[..i]), ws[i]);
        total := total + (ws[i].end - ws[i].start);
      }
    }
    assert ws[..|ws|] == ws;
  }

  /** The part of the statistics that depends on the cut. */
  method BuildStatistics(e: Episode, ads: seq<Window>)
    returns (blocks: seq<Window>, original: int, edited: int, markers: seq<Marker>, bleeps: seq<EditedWindow>)
    ensures blocks == AdBlocks(e, ads) && original == Original(e, ads) && edited == EditedDuration(e, ads)
    ensures ads != [] ==>
              blocks == CutterMerge.Merge(ads, CutterMerge.Settings(OriginalDuration(e, AdTime(ads)), e.minLength,
                                                                    e.minSeparation))
    ensures original == OriginalDuration(e, AdTime(blocks)) && edited == Max(original - AdTime(blocks), 0)
    ensures var cuts := Proper(Sort(ByStart, blocks));
            |markers| == |cuts| && forall i :: 0 <= i < |cuts| ==> markers[i] == MarkerAt(cuts, i)
    ensures bleeps == EditAll(Sort(ByStart, e.bleeps), Sort(ByStart, blocks))
    ensures Countable(e, ads) ==>
              && |markers| == |blocks|
              && (forall i :: 0 <= i < |markers| ==>
                    markers[i].original == blocks[i] && markers[i].edited == KeptBefore(blocks, blocks[i].start))
              && (AllFromZero(e.bleeps) ==>
                    PlacedInCut(bleeps, RetainedPieces(Sort(ByStart, e.bleeps), blocks), blocks))
  {
    hide CutterMerge.Merge, Countable, PlacedInCut, RetainedPieces, EditAll, Disjoint, Follows, Separated, Proper, Sort,
      OriginalDuration, KeptBefore, AdTime, Coalesce, MarkerAt, AllFromZero;
    blocks := ads;
    var adTime := SumNonempty(blocks);
    original := OriginalDuration(e, adTime);
    if blocks != [] {
      blocks := CutterMerge.MergeCutterAdSegments(blocks, CutterMerge.Settings(original, e.minLength, e.minSeparation));
      adTime := SumNonempty(blocks);
      original := OriginalDuration(e, adTime);
    }
    edited := Max(original - adTime, 0);
    markers := BuildAdMarkers(blocks);
    bleeps := BuildEditedBleepWindows(e.bleeps, blocks);
    if Countable(e, ads) {
      BlocksAreCut(e, ads);
      forall i | 0 <= i < |blocks|
        ensures MarkerAt(blocks, i).original == blocks[i]
        ensures MarkerAt(blocks, i).edited == KeptBefore(blocks, blocks[i].start)
      {
        MarkersMatchCut(e, ads, i);
        MarkerIsPointMap(blocks, i);
      }
      if AllFromZero(e.bleeps) {
        SortedFromZero(e.bleeps);
      }
    }
  }

  lemma {:induction false} SortedFromZero(bleeps: seq<Window>)
    requires AllFromZero(bleeps)
    ensures AllFromZero(Sort(ByStart, bleeps))
  {
    SortKeepsElements(ByStart, bleeps);
    var sorted := Sort(ByStart, bleeps);
    forall i | 0 <= i < |sorted|
      ensures 0 <= sorted[i].start && 0 <= sorted[i].end
    {
      assert sorted[i] in bleeps;
    }
  }

  // ---------- merged ads are a cut ----------

  /** Windows starting in the file; nonempty ones if `solid`. */
  ghost predicate StartInside(ws: seq<Window>, hi: int, solid: bool) {
    forall i :: 0 <= i < |ws| ==> 0 <= ws[i].start < hi && (solid ==> ws[i].Nonempty())
  }

  lemma {:induction false} EdgesStartInside(segs: seq<Window>, s: CutterMerge.Settings, solid: bool)
    requires CutterMerge.Inside(segs, s.duration) && StartInside(segs, s.duration, solid)
    ensures StartInside(CutterMerge.MergeTrailing(CutterMerge.MergeLeading(segs, s), s), s.duration, solid)
  {
    var led := CutterMerge.MergeLeading(segs, s);
    assert StartInside(led, s.duration, solid) && CutterMerge.Inside(led, s.duration);
  }

  lemma {:induction false} CloseStartInside(segs: seq<Window>, separation: int, hi: int, solid: bool)
    requires CutterMerge.Inside(segs, hi) && StartInside(segs, hi, solid)
    ensures StartInside(CutterMerge.MergeClose(segs, separation), hi, solid)
    decreases |segs|
  {
    if |segs| < 2 {
    } else if segs[0].end + separation >= segs[1].start {
      CloseStartInside(CutterMerge.JoinHead(segs), separation, hi, solid);
    } else {
      CloseStartInside(segs[1..], separation, hi, solid);
    }
  }

  lemma {:induction false} LongStartInside(segs: seq<Window>, minLength: int, hi: int, solid: bool)
    requires StartInside(segs, hi, solid)
    ensures StartInside(CutterMerge.RetainLong(segs, minLength), hi, solid)
  {
    if segs != [] {
      LongStartInside(segs[..|segs| - 1], minLength, hi, solid);
    }
  }

  /** Ads inside the file that none can come out of as an empty window: each is nonempty itself, or
      a minimum length is asked for and each starts before the end. */
  ghost predicate Mergeable(ads: seq<Window>, s: CutterMerge.Settings) {
    && 0 <= s.minSeparation
    && (forall i :: 0 <= i < |ads| ==> 0 <= ads[i].start <= ads[i].end <= s.duration)
    && (AllNonempty(ads) || (0 < s.minLength && forall i :: 0 <= i < |ads| ==> ads[i].start < s.duration))
  }

  lemma {:induction false} SortedStartInside(ads: seq<Window>, s: CutterMerge.Settings)
    requires Mergeable(ads, s)
    ensures StartInside(Sort(CutterMerge.ByPair, ads), s.duration, AllNonempty(ads))
  {
    var sorted := Sort(CutterMerge.ByPair, ads);
    SortKeepsElements(CutterMerge.ByPair, ads);
    forall i | 0 <= i < |sorted|
      ensures 0 <= sorted[i].start < s.duration && (AllNonempty(ads) ==> sorted[i].Nonempty())
    {
      assert sorted[i] in ads;
    }
  }

  lemma {:induction false} JoinedStartInside(sorted: seq<Window>, s: CutterMerge.Settings, solid: bool)
    requires CutterMerge.Inside(sorted, s.duration) && StartInside(sorted, s.duration, solid)
    ensures StartInside(CutterMerge.Joined(sorted, s), s.duration, solid)
  {
    hide CutterMerge.Inside, StartInside, CutterMerge.MergeTrailing, CutterMerge.MergeLeading;
    EdgesStartInside(sorted, s, solid);
    if sorted != [] {
      CutterMerge.EdgesKeepInside(sorted, s);
    } else {
      NoEdges(s);
    }
    var edged := CutterMerge.MergeTrailing(CutterMerge.MergeLeading(sorted, s), s);
    CloseStartInside(edged, s.minSeparation, s.duration, solid);
  }

  lemma {:induction false} NoEdges(s: CutterMerge.Settings)
    ensures CutterMerge.MergeTrailing(CutterMerge.MergeLeading([], s), s) == []
  {
  }

  lemma {:induction false} FinishedStartInside(segs: seq<Window>, last: Option<Window>, s: CutterMerge.Settings,
                                               solid: bool)
    requires StartInside(segs, s.duration, solid) && (last.Some? ==> StartInside([last.value], s.duration, solid))
    ensures StartInside(CutterMerge.ExtendTail(CutterMerge.RestoreLast(segs, last), s), s.duration, solid)
  {
    var restored := CutterMerge.RestoreLast(segs, last);
    assert last.Some? ==> [last.value][0] == last.value;
    assert StartInside(restored, s.duration, solid);
  }

  lemma {:induction false} MergedStartInside(ads: seq<Window>, s: CutterMerge.Settings)
    requires Mergeable(ads, s)
    ensures StartInside(CutterMerge.Merge(ads, s), s.duration, AllNonempty(ads))
  {
    hide CutterMerge.Joined, CutterMerge.RestoreLast, CutterMerge.ExtendTail, CutterMerge.RetainLong,
      CutterMerge.Inside;
    var solid, sorted := AllNonempty(ads), Sort(CutterMerge.ByPair, ads);
    CutterMerge.SortedInside(ads, s.duration);
    SortedStartInside(ads, s);
    JoinedStartInside(sorted, s, solid);
    var retained := CutterMerge.RetainLong(CutterMerge.Joined(sorted, s), s.minLength);
    LongStartInside(CutterMerge.Joined(sorted, s), s.minLength, s.duration, solid);
    FinishedStartInside(retained, CutterMerge.LastSegment(sorted, s), s, solid);
  }

  /** The merged ads are a cut of the file: nonempty, more than the separation apart, inside it. */
  lemma {:induction false} MergedIsCut(ads: seq<Window>, s: CutterMerge.Settings)
    requires Mergeable(ads, s)
    ensures var m := CutterMerge.Merge(ads, s);
            Separated(m, s.minSeparation) && Follows(m, 0) && EndsBy(m, s.duration)
  {
    hide CutterMerge.Merge;
    CutterMerge.MergeSettles(ads, s);
    MergedStartInside(ads, s);
  }

  lemma {:induction false} ProperIsIdentity(ws: seq<Window>)
    requires AllNonempty(ws)
    ensures Proper(ws) == ws
  {
    if ws != [] {
      ProperIsIdentity(ws[..|ws| - 1]);
    }
  }

  /** A cut is read back as it is: by the sorting and filtering of the markers and the censor windows,
      and by the coalescing of the audio cutter. */
  lemma {:induction false} CutIsCanonical(m: seq<Window>, gap: int)
    requires Separated(m, gap) && 0 <= gap
    ensures Sort(ByStart, m) == m && Proper(m) == m && Coalesce(m, 0) == m && Disjoint(m)
  {
    assert Separated(m, 0);
    forall i, j | 0 <= i < j < |m|
      ensures ByStart(m[i], m[j])
    {
      assert m[i].end + gap < m[j].start;
    }
    SortOfOrdered(ByStart, m);
    ProperIsIdentity(m);
    SeparatedIsFixpoint(m, 0);
  }

  // ---------- the statistics agree with the cut ----------

  ghost predicate Countable(e: Episode, ads: seq<Window>) {
    Mergeable(ads, SettingsOf(e, ads))
  }

  lemma {:induction false} BlocksAreCut(e: Episode, ads: seq<Window>)
    requires Countable(e, ads)
    ensures var blocks := AdBlocks(e, ads);
            && Separated(blocks, e.minSeparation) && Follows(blocks, 0)
            && EndsBy(blocks, OriginalDuration(e, AdTime(ads)))
            && Sort(ByStart, blocks) == blocks && Proper(blocks) == blocks && Coalesce(blocks, 0) == blocks
            && Disjoint(blocks)
  {
    hide CutterMerge.Merge;
    MergedIsCut(ads, SettingsOf(e, ads));
    CutIsCanonical(AdBlocks(e, ads), e.minSeparation);
  }

  /** The audio cutter removes exactly the reported ads, each has its marker, and the marker stands
      where the audio kept before the ad ends and the audio kept after it begins. */
  lemma {:induction false} MarkersMatchCut(e: Episode, ads: seq<Window>, i: nat)
    requires Countable(e, ads) && i < |AdBlocks(e, ads)|
    ensures var blocks := AdBlocks(e, ads);
            && Coalesce(blocks, 0) == blocks == Proper(Sort(ByStart, blocks))
            && MarkerAt(blocks, i).edited == KeptBefore(blocks, blocks[i].start) == KeptBefore(blocks, blocks[i].end)
  {
    hide AdBlocks;
    BlocksAreCut(e, ads);
    var blocks := AdBlocks(e, ads);
    MarkerIsPointMap(blocks, i);
    PointMapCountsKept(blocks, blocks[i].start);
    PointMapCountsKept(blocks, blocks[i].end);
  }

  /** The edited censor windows last together as long as what the reported ads leave of the originals. */
  lemma {:induction false} BleepsMatchCut(e: Episode, ads: seq<Window>)
    requires Countable(e, ads)
    requires forall i :: 0 <= i < |e.bleeps| ==> 0 <= e.bleeps[i].start && 0 <= e.bleeps[i].end
    ensures var blocks, sorted := AdBlocks(e, ads), Sort(ByStart, e.bleeps);
            EditedTotal(EditAll(sorted, Sort(ByStart, blocks))) == KeptOfBleeps(sorted, blocks)
  {
    hide AdBlocks;
    BlocksAreCut(e, ads);
    SortKeepsElements(ByStart, e.bleeps);
    var sorted := Sort(ByStart, e.bleeps);
    forall i | 0 <= i < |sorted|
      ensures 0 <= sorted[i].start && 0 <= sorted[i].end
    {
      assert sorted[i] in e.bleeps;
    }
    BleepsConserved(sorted, AdBlocks(e, ads));
  }

  lemma {:induction false} RemovedBeforeLess(t: int, ws: seq<Window>, i: nat)
    requires Disjoint(ws) && i < |ws| && t < ws[i].end
    ensures RemovedBefore(t, ws) < TotalLength(ws)
  {
    TotalLengthHead(ws);
    if t >= ws[0].end {
      RemovedBeforeLess(t, ws[1..], i - 1);
    } else {
      TotalNonnegative(ws[1..]);
    }
  }

  lemma {:induction false} TotalNonnegative(ws: seq<Window>)
    requires AllNonempty(ws)
    ensures 0 <= TotalLength(ws)
  {
    if ws != [] {
      TotalNonnegative(ws[..|ws| - 1]);
    }
  }

  /** For a measured cut the edited duration is the measured one, or what the ads leave of the
      transcript if that is more. */
  lemma {:induction false} EditedIsMeasured(e: Episode, ads: seq<Window>)
    requires Measured(e)
    ensures EditedDuration(e, ads) == Max(e.measured.value, TranscriptEnd(e) - AdTime(AdBlocks(e, ads)))
  {
  }

  /** On a cut, its total length is the removed time before `t` if and only if it ends by then. */
  lemma {:induction false} AllRemovedExactly(blocks: seq<Window>, t: nat)
    requires Disjoint(blocks) && Follows(blocks, 0)
    ensures t - TotalLength(blocks) <= KeptBefore(blocks, t)
    ensures t - TotalLength(blocks) == KeptBefore(blocks, t) <==> EndsBy(blocks, t)
  {
    hide KeptBefore, TotalLength, RemovedBefore;
    PointMapCountsKept(blocks, t);
    if EndsBy(blocks, t) {
      RemovedBeforeAll(t, blocks);
    } else {
      var i :| 0 <= i < |blocks| && t < blocks[i].end;
      RemovedBeforeLess(t, blocks, i);
    }
  }

  lemma {:induction false} UnmeasuredResolvesOnce(e: Episode, adTime: int, otherAdTime: int)
    requires !Measured(e)
    ensures OriginalDuration(e, adTime) == OriginalDuration(e, otherAdTime)
  {
  }

  lemma {:induction false} AdTimeNonnegative(ws: seq<Window>)
    ensures 0 <= AdTime(ws)
  {
    ProperKeeps(ws);
    TotalNonnegative(Proper(ws));
  }

  lemma {:induction false} NegativeHasNoBlocks(e: Episode, ads: seq<Window>)
    requires Countable(e, ads) && Original(e, ads) < 0
    ensures AdBlocks(e, ads) == []
  {
    hide CutterMerge.Merge, CutDuration, TranscriptEnd, AdTime;
    AdTimeNonnegative(AdBlocks(e, ads));
    if ads != [] {
      assert 0 <= ads[0].end <= SettingsOf(e, ads).duration;
      if Measured(e) {
        EditedIsMeasured(e, ads);
      } else {
        UnmeasuredResolvesOnce(e, AdTime(ads), AdTime(AdBlocks(e, ads)));
      }
    }
  }

  /** The edited duration is the length of the kept audio if and only if no ad block ends after the
      duration resolved from the blocks; without a measured length none does. */
  lemma {:induction false} EditedDurationExact(e: Episode, ads: seq<Window>)
    requires Countable(e, ads)
    ensures var blocks, original := AdBlocks(e, ads), Original(e, ads);
            && (EditedDuration(e, ads) == KeptBefore(blocks, original) <==> EndsBy(blocks, original))
            && (!Measured(e) ==> EndsBy(blocks, original))
  {
    hide AdBlocks, OriginalDuration, TranscriptEnd, TotalLength, Countable, Separated, Disjoint;
    BlocksAreCut(e, ads);
    var blocks, original := AdBlocks(e, ads), Original(e, ads);
    if original < 0 {
      NegativeHasNoBlocks(e, ads);
      AdTimeNonnegative(blocks);
    } else {
      AllRemovedExactly(blocks, original);
      if Measured(e) {
        EditedIsMeasured(e, ads);
      } else {
        UnmeasuredResolvesOnce(e, AdTime(ads), AdTime(blocks));
      }
    }
  }

  /** Where the ads lie inside the transcript, a block ends after the reported duration exactly when the last ad stops
      within the last separation of the file the ads are merged against, and that file is longer than the reported
      one: it is a measured one, longer than its transcript, and merging takes ad time away. */
  lemma {:induction false} OverrunsExactly(e: Episode, ads: seq<Window>)
    requires Countable(e, ads)
    requires forall i :: 0 <= i < |ads| ==> ads[i].end <= TranscriptEnd(e)
    ensures var s := SettingsOf(e, ads);
            && (EndsBy(AdBlocks(e, ads), Original(e, ads))
                <==> !CutterMerge.StopsNearEnd(ads, s) || s.duration <= Original(e, ads))
            && (s.duration <= Original(e, ads)
                <==> !Measured(e) || s.duration <= TranscriptEnd(e) || AdTime(ads) <= AdTime(AdBlocks(e, ads)))
  {
    hide CutterMerge.Merge, CutterMerge.StopsNearEnd, TranscriptEnd, LatestEnd, AdTime, Countable, Separated, Disjoint;
    BlocksAreCut(e, ads);
    MergeableInside(e, ads);
    CutterMerge.MergedEnds(ads, SettingsOf(e, ads), TranscriptEnd(e));
    if ads == [] {
      NothingStops(SettingsOf(e, ads));
    }
  }

  lemma {:induction false} NothingStops(s: CutterMerge.Settings)
    ensures !CutterMerge.StopsNearEnd([], s)
  {
  }

  lemma {:induction false} MergeableInside(e: Episode, ads: seq<Window>)
    requires Countable(e, ads)
    ensures 0 <= e.minSeparation
    ensures forall i :: 0 <= i < |ads| ==> ads[i].start <= ads[i].end <= SettingsOf(e, ads).duration
  {
  }

  /** An ad block can end after the reported duration: dropping a short ad takes its length out of the
      duration after the last ad has been run to the end of the longer one. */
  lemma {:induction false} BlockOverrunsDuration()
    ensures var e := Episode(Some(46_000), [Window(0, 60_000)], [], 10_000, 10_000);
            var ads := [Window(0, 9_000), Window(50_000, 60_000)];
            && Countable(e, ads)
            && AdBlocks(e, ads) == [Window(50_000, 65_000)] && Original(e, ads) == 61_000
            && EditedDuration(e, ads) == 46_000 < KeptBefore(AdBlocks(e, ads), 61_000)
  {
    hide CutterMerge.Merge, KeptBefore, AdTime;
    var e := Episode(Some(46_000), [Window(0, 60_000)], [], 10_000, 10_000);
    var ads := [Window(0, 9_000), Window(50_000, 60_000)];
    TwoAdTime(ads);
    assert SettingsOf(e, ads) == CutterMerge.Settings(65_000, 10_000, 10_000);
    ShortAdDropped(ads);
    LastAdTime([Window(50_000, 65_000)]);
  }

  lemma {:induction false} TwoAdTime(ads: seq<Window>)
    requires ads == [Window(0, 9_000), Window(50_000, 60_000)]
    ensures AdTime(ads) == 19_000
  {
    ProperIsIdentity(ads);
    TotalLengthAppend([], ads[0]);
    TotalLengthAppend([ads[0]], ads[1]);
    assert ads == [ads[0]] + [ads[1]] && [] + [ads[0]] == [ads[0]];
  }

  lemma {:induction false} LastAdTime(blocks: seq<Window>)
    requires blocks == [Window(50_000, 65_000)]
    ensures AdTime(blocks) == 15_000 && 46_000 < KeptBefore(blocks, 61_000)
  {
    hide KeptBefore;
    ProperIsIdentity(blocks);
    TotalLengthAppend([], blocks[0]);
    assert blocks == [] + [blocks[0]];
    assert blocks[0].end > 61_000;
    AllRemovedExactly(blocks, 61_000);
  }

  lemma {:induction false} ShortAdDropped(ads: seq<Window>)
    requires ads == [Window(0, 9_000), Window(50_000, 60_000)]
    ensures CutterMerge.Merge(ads, CutterMerge.Settings(65_000, 10_000, 10_000)) == [Window(50_000, 65_000)]
  {
    var s := CutterMerge.Settings(65_000, 10_000, 10_000);
    CutterMerge.ApartIsFixpoint(ads, s.minSeparation, s.duration);
    assert CutterMerge.Joined(ads, s) == ads;
    hide CutterMerge.Joined, CutterMerge.MergeLeading, CutterMerge.MergeTrailing;
    CutterMerge.MergeByGroups(ads, s);
    SortOfOrdered(CutterMerge.ByPair, ads);
    CutterMerge.MergeOfSorted(ads, s);
    assert ads[..1][..0] == [];
    assert CutterMerge.RetainLong(ads[..1], 10_000) == [];
  }
}
