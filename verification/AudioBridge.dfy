/** Joining ad windows across gaps that music or silence fills. Times are milliseconds. */
module AudioBridge {
  import opened Basics
  import opened Sorting
  import opened Windows

  const BRIDGE_GAP := 750

  // ---------- merging with a gap ----------

  function MergeWithGap(ws: seq<Window>, gap: int): seq<Window> {
    Coalesce(Proper(ws), gap)
  }

  method MergeFloatWindows(windows: seq<Window>, gap: int) returns (merged: seq<Window>)
    ensures merged == MergeWithGap(windows, gap)
  {
    var proper := [];
    for i := 0 to |windows|
      invariant proper == Proper(windows[..i])
    {
      assert windows[..i + 1][..i] == windows[..i];
      if windows[i].end > windows[i].start {
        proper := proper + [windows[i]];
      }
    }
    assert windows[..|windows|] == windows;
    var sorted := Sort(ByStart, proper);
    merged := [];
    for i := 0 to |sorted|
      invariant merged == CoalesceSorted(sorted[..i], gap)
    {
      assert sorted[..i + 1][..i] == sorted[..i];
      if |merged| > 0 {
        var last := merged[|merged| - 1];
        if sorted[i].start <= last.end + gap {
          merged := merged[|merged| - 1 := Window(last.start, Max(last.end, sorted[i].end))];
          continue;
        }
      }
      merged := merged + [sorted[i]];
    }
    assert sorted[..|sorted|] == sorted;
  }

  /** Merging yields windows more than the gap apart that cover exactly the filled points. */
  lemma {:induction false} MergeWithGapCorrect(ws: seq<Window>, gap: int)
    requires 0 <= gap
    ensures Separated(MergeWithGap(ws, gap), gap)
    ensures forall t :: Covered(MergeWithGap(ws, gap), t) <==> Filled(Proper(ws), t, gap)
  {
    ProperKeeps(ws);
    CoalesceCorrect(Proper(ws), gap);
  }

  // ---------- the coverage sweep ----------

  /** The sweep from window k on, with the gap covered up to `coverage`. */
  function Sweep(coverage: int, gapEnd: int, audio: seq<Window>, k: nat, tolerance: int): bool
    decreases |audio| - k
  {
    if k >= |audio| then false
    else if audio[k].end < coverage - tolerance then Sweep(coverage, gapEnd, audio, k + 1, tolerance)
    else if audio[k].start > coverage + tolerance then false
    else
      Max(coverage, audio[k].end) >= gapEnd - tolerance
      || Sweep(Max(coverage, audio[k].end), gapEnd, audio, k + 1, tolerance)
  }

  function GapCovered(gapStart: int, gapEnd: int, audio: seq<Window>, tolerance: int): bool {
    gapEnd <= gapStart || Sweep(gapStart, gapEnd, audio, 0, tolerance)
  }

  method GapIsCoveredByAudio(gapStart: int, gapEnd: int, audio: seq<Window>, tolerance: int) returns (covered: bool)
    ensures covered == GapCovered(gapStart, gapEnd, audio, tolerance)
  {
    if gapEnd <= gapStart {
      return true;
    }
    var coverage := gapStart;
    for k := 0 to |audio|
      invariant Sweep(coverage, gapEnd, audio, k, tolerance) == Sweep(gapStart, gapEnd, audio, 0, tolerance)
    {
      if audio[k].end < coverage - tolerance {
        continue;
      }
      if audio[k].start > coverage + tolerance {
        return false;
      }
      coverage := Max(coverage, audio[k].end);
      if coverage >= gapEnd - tolerance {
        return true;
      }
    }
    return false;
  }

  /** One window alone answers for the gap: it starts by the gap's start and ends near or after it,
      and reaches the gap's end, each up to the tolerance. */
  predicate Bridges(w: Window, gapStart: int, gapEnd: int, tolerance: int) {
    && w.start <= gapStart + tolerance
    && w.end >= gapStart - tolerance
    && Max(gapStart, w.end) >= gapEnd - tolerance
  }

  ghost predicate BridgedFrom(audio: seq<Window>, k: nat, gapStart: int, gapEnd: int, tolerance: int) {
    exists i :: k <= i < |audio| && Bridges(audio[i], gapStart, gapEnd, tolerance)
  }

  /** Once coverage has moved past the gap's start, no later window can extend it. */
  lemma {:induction false} SweepStops(coverage: int, gapEnd: int, audio: seq<Window>, k: nat, tolerance: int)
    requires 0 <= tolerance
    requires forall i :: k <= i < |audio| ==> audio[i].start > coverage + tolerance && audio[i].Nonempty()
    ensures !Sweep(coverage, gapEnd, audio, k, tolerance)
  {
  }

  lemma {:induction false} SweepExact(gapStart: int, gapEnd: int, audio: seq<Window>, k: nat, tolerance: int)
    requires Separated(audio, tolerance) && 0 <= tolerance
    ensures Sweep(gapStart, gapEnd, audio, k, tolerance) <==> BridgedFrom(audio, k, gapStart, gapEnd, tolerance)
    decreases |audio| - k
  {
    if k < |audio| {
      var w := audio[k];
      SweepExact(gapStart, gapEnd, audio, k + 1, tolerance);
      assert BridgedFrom(audio, k, gapStart, gapEnd, tolerance)
             <==> Bridges(w, gapStart, gapEnd, tolerance) || BridgedFrom(audio, k + 1, gapStart, gapEnd, tolerance);
      assert forall i :: k < i < |audio| ==> audio[i].start > w.end + tolerance;
      if w.end >= gapStart - tolerance && w.start <= gapStart + tolerance && w.end > gapStart {
        SweepStops(w.end, gapEnd, audio, k + 1, tolerance);
      }
    }
  }

  /** On audio merged with the tolerance as its gap, the greedy sweep answers true exactly when the
      gap is empty or one merged window bridges it on its own. */
  lemma {:induction false} GapCoveredExact(gapStart: int, gapEnd: int, audio: seq<Window>, tolerance: int)
    requires Separated(audio, tolerance) && 0 <= tolerance
    ensures GapCovered(gapStart, gapEnd, audio, tolerance)
            <==> gapEnd <= gapStart || exists i :: 0 <= i < |audio| && Bridges(audio[i], gapStart, gapEnd, tolerance)
  {
    SweepExact(gapStart, gapEnd, audio, 0, tolerance);
    if gapEnd > gapStart {
      assert BridgedFrom(audio, 0, gapStart, gapEnd, tolerance)
             <==> exists i :: 0 <= i < |audio| && Bridges(audio[i], gapStart, gapEnd, tolerance);
    }
  }

  /** The time is in a window, or by the tolerance before one. */
  ghost predicate NearAudio(audio: seq<Window>, t: int, tolerance: int) {
    exists i :: 0 <= i < |audio| && audio[i].start <= t + tolerance && t < audio[i].end
  }

  ghost predicate AllCovered(audio: seq<Window>, from: int, to: int) {
    forall t :: from <= t < to ==> Covered(audio, t)
  }

  lemma {:induction false} SweepSound(coverage: int, gapEnd: int, audio: seq<Window>, k: nat, tolerance: int, t: int)
    requires Sweep(coverage, gapEnd, audio, k, tolerance) && coverage <= t < gapEnd - tolerance
    ensures NearAudio(audio, t, tolerance)
    decreases |audio| - k
  {
    if audio[k].end < coverage - tolerance {
      SweepSound(coverage, gapEnd, audio, k + 1, tolerance, t);
    } else if t >= audio[k].end {
      SweepSound(Max(coverage, audio[k].end), gapEnd, audio, k + 1, tolerance, t);
    }
  }

  lemma {:induction false} SweepComplete(coverage: int, gapEnd: int, audio: seq<Window>, k: nat, tolerance: int)
    requires Ordered(ByStart, audio) && 0 <= tolerance && coverage < gapEnd - tolerance
    requires k <= |audio| && AllCovered(audio[k..], coverage, gapEnd - tolerance)
    ensures Sweep(coverage, gapEnd, audio, k, tolerance)
    decreases |audio| - k
  {
    var rest := audio[k..];
    assert Covered(rest, coverage);
    var i :| 0 <= i < |rest| && rest[i].Has(coverage);
    assert rest[i] == audio[k + i];
    assert ByStart(audio[k], audio[k + i]) || i == 0;
    var further, later := Max(coverage, audio[k].end), audio[k + 1..];
    forall t | further <= t < gapEnd - tolerance
      ensures Covered(later, t)
    {
      assert Covered(rest, t);
      var j :| 0 <= j < |rest| && rest[j].Has(t);
      assert j > 0 && rest[j] == later[j - 1];
    }
    if further < gapEnd - tolerance {
      SweepComplete(further, gapEnd, audio, k + 1, tolerance);
    }
  }

  /** On any audio in start order: a gap the sweep finds covered has each of its milliseconds, up to the tolerance at
      its end, in a window or by the tolerance before one; and it finds every gap that the audio covers. */
  lemma {:induction false} GapCoveredByPoints(gapStart: int, gapEnd: int, audio: seq<Window>, tolerance: int)
    requires Ordered(ByStart, audio) && 0 <= tolerance && gapStart < gapEnd - tolerance
    ensures GapCovered(gapStart, gapEnd, audio, tolerance) ==>
              forall t :: gapStart <= t < gapEnd - tolerance ==> NearAudio(audio, t, tolerance)
    ensures AllCovered(audio, gapStart, gapEnd - tolerance) ==>
              GapCovered(gapStart, gapEnd, audio, tolerance)
  {
    if GapCovered(gapStart, gapEnd, audio, tolerance) {
      forall t | gapStart <= t < gapEnd - tolerance
        ensures NearAudio(audio, t, tolerance)
      {
        SweepSound(gapStart, gapEnd, audio, 0, tolerance, t);
      }
    }
    if AllCovered(audio, gapStart, gapEnd - tolerance) {
      assert audio[0..] == audio;
      SweepComplete(gapStart, gapEnd, audio, 0, tolerance);
    }
  }

  // ---------- bridging ad windows ----------

  /** One turn of the loop: stretch the last window over the gap, or start a new one. */
  function BridgeStep(before: seq<Window>, next: Window, covered: bool): seq<Window>
    requires before != []
  {
    if covered then before[|before| - 1 := Window(before[|before| - 1].start, next.end)] else before + [next]
  }

  /** The bridging loop over a prefix of the merged ads. */
  function BridgeLoop(ads: seq<Window>, audio: seq<Window>): (bridged: seq<Window>)
    ensures bridged == [] <==> ads == []
  {
    if |ads| <= 1 then ads
    else
      var before, next := BridgeLoop(ads[..|ads| - 1], audio), ads[|ads| - 1];
      BridgeStep(before, next, GapCovered(before[|before| - 1].end, next.start, audio, BRIDGE_GAP))
  }

  function Bridge(adWindows: seq<Window>, audioWindows: seq<Window>): seq<Window> {
    var ads, audio := MergeWithGap(adWindows, 0), MergeWithGap(audioWindows, BRIDGE_GAP);
    if |ads| <= 1 || audio == [] then ads else BridgeLoop(ads, audio)
  }

  method BridgeAdWindowsWithAudio(adWindows: seq<Window>, audioWindows: seq<Window>) returns (bridged: seq<Window>)
    ensures bridged == Bridge(adWindows, audioWindows)
  {
    var mergedAds := MergeFloatWindows(adWindows, 0);
    if |mergedAds| == 0 || |mergedAds| == 1 {
      return mergedAds;
    }
    var mergedAudio := MergeFloatWindows(audioWindows, BRIDGE_GAP);
    if |mergedAudio| == 0 {
      return mergedAds;
    }
    bridged := mergedAds[..1];
    for i := 1 to |mergedAds|
      invariant bridged == BridgeLoop(mergedAds[..i], mergedAudio) && bridged != []
    {
      assert mergedAds[..i + 1][..i] == mergedAds[..i];
      var next, current := mergedAds[i], bridged[|bridged| - 1];
      var covered := GapIsCoveredByAudio(current.end, next.start, mergedAudio, BRIDGE_GAP);
      if covered {
        bridged := bridged[|bridged| - 1 := Window(current.start, next.end)];
      } else {
        bridged := bridged + [next];
      }
    }
    assert mergedAds[..|mergedAds|] == mergedAds;
  }

  /** `t` lies in the gap between two neighbouring ads that audio covers. */
  ghost predicate InCoveredGap(ads: seq<Window>, audio: seq<Window>, t: int) {
    exists i :: 0 <= i < |ads| - 1 && ads[i].end <= t < ads[i + 1].start
                && GapCovered(ads[i].end, ads[i + 1].start, audio, 750)
  }

  lemma {:induction false} InCoveredGapAppend(ads: seq<Window>, next: Window, audio: seq<Window>, t: int)
    requires ads != []
    ensures InCoveredGap(ads + [next], audio, t)
            <==> InCoveredGap(ads, audio, t)
                 || (ads[|ads| - 1].end <= t < next.start
                     && GapCovered(ads[|ads| - 1].end, next.start, audio, 750))
  {
    var all := ads + [next];
    if InCoveredGap(ads, audio, t) {
      var i :| 0 <= i < |ads| - 1 && ads[i].end <= t < ads[i + 1].start
               && GapCovered(ads[i].end, ads[i + 1].start, audio, 750);
      assert all[i] == ads[i] && all[i + 1] == ads[i + 1];
    }
    if InCoveredGap(all, audio, t) {
      var i :| 0 <= i < |all| - 1 && all[i].end <= t < all[i + 1].start
               && GapCovered(all[i].end, all[i + 1].start, audio, 750);
      assert i < |ads| - 1 ==> all[i] == ads[i] && all[i + 1] == ads[i + 1];
    }
    assert all[|ads| - 1] == ads[|ads| - 1] && all[|ads|] == next;
  }

  lemma {:induction false} BridgeStepCovers(before: seq<Window>, next: Window, covered: bool, t: int)
    requires before != [] && AllNonempty(before) && next.Nonempty() && before[|before| - 1].end <= next.start
    ensures Covered(BridgeStep(before, next, covered), t)
            <==> Covered(before, t) || next.Has(t) || (covered && before[|before| - 1].end <= t < next.start)
  {
    var current := before[|before| - 1];
    var init := before[..|before| - 1];
    assert before == init + [current];
    CoveredAppend(init, current, t);
    if covered {
      CoveredReplaceLast(before, Window(current.start, next.end), t);
    } else {
      CoveredAppend(before, next, t);
    }
  }

  lemma {:induction false} BridgeStepSeparated(before: seq<Window>, next: Window, covered: bool)
    requires Separated(before, 0) && before != [] && next.Nonempty() && before[|before| - 1].end < next.start
    ensures Separated(BridgeStep(before, next, covered), 0)
    ensures var after := BridgeStep(before, next, covered); after[|after| - 1].end == next.end
  {
    assert forall i :: 0 <= i < |before| - 1 ==> before[i].end < before[|before| - 1].start;
  }

  /** Bridging keeps the windows separated, and its last window always ends with the last ad. */
  lemma {:induction false} BridgeLoopShape(ads: seq<Window>, audio: seq<Window>)
    requires Separated(ads, 0) && ads != []
    ensures Separated(BridgeLoop(ads, audio), 0) && BridgeLoop(ads, audio) != []
    ensures BridgeLoop(ads, audio)[|BridgeLoop(ads, audio)| - 1].end == ads[|ads| - 1].end
  {
    if |ads| > 1 {
      var init, next := ads[..|ads| - 1], ads[|ads| - 1];
      BridgeLoopShape(init, audio);
      var before := BridgeLoop(init, audio);
      assert ads[|ads| - 2].end < ads[|ads| - 1].start;
      BridgeStepSeparated(before, next, GapCovered(before[|before| - 1].end, next.start, audio, 750));
    }
  }

  lemma {:induction false} BridgeLoopGrows(init: seq<Window>, next: Window, audio: seq<Window>, before: seq<Window>,
                                           t: int)
    requires Separated(before, 0) && before != [] && init != [] && next.Nonempty()
    requires before[|before| - 1].end == init[|init| - 1].end < next.start
    requires Covered(before, t) <==> Covered(init, t) || InCoveredGap(init, audio, t)
    ensures Covered(BridgeStep(before, next, GapCovered(init[|init| - 1].end, next.start, audio, 750)), t)
            <==> Covered(init + [next], t) || InCoveredGap(init + [next], audio, t)
  {
    BridgeStepCovers(before, next, GapCovered(init[|init| - 1].end, next.start, audio, 750), t);
    InCoveredGapAppend(init, next, audio, t);
    CoveredAppend(init, next, t);
  }

  /** Bridging adds exactly the covered gaps. */
  lemma {:induction false} BridgeLoopCovers(ads: seq<Window>, audio: seq<Window>, t: int)
    requires Separated(ads, 0) && ads != []
    ensures Covered(BridgeLoop(ads, audio), t) <==> Covered(ads, t) || InCoveredGap(ads, audio, t)
  {
    hide GapCovered, Covered, BridgeStep;
    if |ads| > 1 {
      hide InCoveredGap;
      var init, next := ads[..|ads| - 1], ads[|ads| - 1];
      assert init[|init| - 1].end < next.start by {
        assert ads[|ads| - 2].end < ads[|ads| - 1].start;
      }
      BridgeLoopCovers(init, audio, t);
      BridgeLoopShape(init, audio);
      BridgeLoopGrows(init, next, audio, BridgeLoop(init, audio), t);
      assert ads == init + [next];
    }
  }

  /** The bridged ads are separated and cover exactly the ads and the gaps between neighbouring
      merged ads that one merged stretch of audio bridges on its own. */
  lemma {:induction false} BridgeExact(adWindows: seq<Window>, audioWindows: seq<Window>)
    ensures Separated(Bridge(adWindows, audioWindows), 0)
    ensures var ads, audio := MergeWithGap(adWindows, 0), MergeWithGap(audioWindows, 750);
            forall t :: Covered(Bridge(adWindows, audioWindows), t)
                        <==> Covered(ads, t) || InBridgedGap(ads, audio, t)
  {
    var ads, audio := MergeWithGap(adWindows, 0), MergeWithGap(audioWindows, 750);
    MergeWithGapCorrect(adWindows, 0);
    MergeWithGapCorrect(audioWindows, 750);
    forall t
      ensures InCoveredGap(ads, audio, t) <==> InBridgedGap(ads, audio, t)
    {
      CoveredGapIsBridged(ads, audio, t);
    }
    if |ads| > 1 && audio != [] {
      BridgeLoopShape(ads, audio);
      forall t
        ensures Covered(BridgeLoop(ads, audio), t) <==> Covered(ads, t) || InCoveredGap(ads, audio, t)
      {
        BridgeLoopCovers(ads, audio, t);
      }
    }
  }

  /** `t` lies between two neighbouring ads whose gap one window of audio bridges on its own. */
  ghost predicate InBridgedGap(ads: seq<Window>, audio: seq<Window>, t: int) {
    exists i, k :: 0 <= i < |ads| - 1 && 0 <= k < |audio| && ads[i].end <= t < ads[i + 1].start
                   && Bridges(audio[k], ads[i].end, ads[i + 1].start, 750)
  }

  lemma {:induction false} CoveredGapIsBridged(ads: seq<Window>, audio: seq<Window>, t: int)
    requires Separated(ads, 0) && Separated(audio, 750)
    ensures InCoveredGap(ads, audio, t) <==> InBridgedGap(ads, audio, t)
  {
    if InCoveredGap(ads, audio, t) {
      var i :| 0 <= i < |ads| - 1 && ads[i].end <= t < ads[i + 1].start
               && GapCovered(ads[i].end, ads[i + 1].start, audio, 750);
      GapCoveredExact(ads[i].end, ads[i + 1].start, audio, 750);
      var k :| 0 <= k < |audio| && Bridges(audio[k], ads[i].end, ads[i + 1].start, 750);
    }
    if InBridgedGap(ads, audio, t) {
      var i, k :| 0 <= i < |ads| - 1 && 0 <= k < |audio| && ads[i].end <= t < ads[i + 1].start
                  && Bridges(audio[k], ads[i].end, ads[i + 1].start, 750);
      GapCoveredExact(ads[i].end, ads[i + 1].start, audio, 750);
    }
  }
}
