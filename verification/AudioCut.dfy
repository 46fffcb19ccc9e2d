/** The audio cutter: removal windows are merged, inverted into the kept audio, and either
    cut exactly or cut with a fade at each edge. All times are milliseconds. */
module AudioCut {
  import opened Basics
  import opened Sorting
  import opened Windows

  // ---------- reading and merging removal windows ----------

  /** Coalesces overlapping and touching windows, extending the last merged window in place. */
  method MergeWindows(windows: seq<Window>) returns (merged: seq<Window>)
    ensures merged == Coalesce(windows, 0)
    ensures AllNonempty(windows) ==>
              Separated(merged, 0) && forall t :: Covered(merged, t) <==> Covered(windows, t)
  {
    var sorted := Sort(ByStart, windows);
    merged := [];
    for i := 0 to |sorted|
      invariant merged == CoalesceSorted(sorted[..i], 0)
    {
      var w := sorted[i];
      assert sorted[..i + 1][..i] == sorted[..i];
      if |merged| > 0 && w.start <= merged[|merged| - 1].end {
        var last := merged[|merged| - 1];
        merged := merged[|merged| - 1 := Window(last.start, Max(last.end, w.end))];
      } else {
        merged := merged + [w];
      }
    }
    assert sorted[..|sorted|] == sorted;
    if AllNonempty(windows) {
      CoalesceCorrect(windows, 0);
      forall t
        ensures Covered(merged, t) <==> Covered(windows, t)
      {
        assert Covered(merged, t) <==> Filled(windows, t, 0);
      }
    }
  }

  /** The removal windows as read from the request: empty and inverted ones are dropped first. */
  method ReadWindows(raw: seq<Window>) returns (merged: seq<Window>)
    ensures Separated(merged, 0)
    ensures forall t :: Covered(merged, t) <==> Covered(raw, t)
  {
    var proper := [];
    for i := 0 to |raw|
      invariant AllNonempty(proper)
      invariant forall t :: Covered(proper, t) <==> Covered(raw[..i], t)
    {
      assert raw[..i + 1] == raw[..i] + [raw[i]];
      forall t
        ensures Covered(raw[..i + 1], t) <==> Covered(raw[..i], t) || raw[i].Has(t)
        ensures Covered(proper + [raw[i]], t) <==> Covered(proper, t) || raw[i].Has(t)
      {
        CoveredAppend(raw[..i], raw[i], t);
        CoveredAppend(proper, raw[i], t);
      }
      if raw[i].end > raw[i].start {
        proper := proper + [raw[i]];
      }
    }
    assert raw[..|raw|] == raw;
    merged := MergeWindows(proper);
  }

  // ---------- the kept audio ----------

  function LastEnd(ws: seq<Window>): int {
    if ws == [] then 0 else ws[|ws| - 1].end
  }

  /** Adds the stretch between two times, if there is any. */
  function AddGap(kept: seq<Window>, from: int, to: int): seq<Window> {
    if to > from then kept + [Window(from, to)] else kept
  }

  /** The audio kept before the last window of the list. */
  function Gaps(ws: seq<Window>): seq<Window> {
    if ws == [] then []
    else AddGap(Gaps(ws[..|ws| - 1]), LastEnd(ws[..|ws| - 1]), ws[|ws| - 1].start)
  }

  /** The audio left over when `ws` is removed from a file of the given duration. */
  function Keep(ws: seq<Window>, duration: int): seq<Window> {
    AddGap(Gaps(ws), LastEnd(ws), duration)
  }

  method KeepSegments(windows: seq<Window>, duration: nat) returns (keep: seq<Window>)
    ensures keep == Keep(windows, duration)
  {
    keep := [];
    var lastEnd := 0;
    for i := 0 to |windows|
      invariant keep == Gaps(windows[..i]) && lastEnd == LastEnd(windows[..i])
    {
      assert windows[..i + 1][..i] == windows[..i];
      if windows[i].start > lastEnd {
        keep := keep + [Window(lastEnd, windows[i].start)];
      }
      lastEnd := windows[i].end;
    }
    assert windows[..|windows|] == windows;
    if lastEnd < duration {
      keep := keep + [Window(lastEnd, duration)];
    }
  }

  /** `kept` holds exactly the points of the file that no window removes. */
  ghost predicate Partitions(kept: seq<Window>, removed: seq<Window>, duration: int) {
    forall t :: Covered(kept, t) <==> 0 <= t < duration && !Covered(removed, t)
  }

  /** Every window starts at or after `t`. */
  ghost predicate Follows(ws: seq<Window>, t: int) {
    forall i :: 0 <= i < |ws| ==> t <= ws[i].start
  }

  ghost predicate EndsBy(ws: seq<Window>, t: int) {
    forall i :: 0 <= i < |ws| ==> ws[i].end <= t
  }

  /** Before the end of the last window, the gaps are exactly what the windows leave. */
  lemma {:induction false} GapsCover(ws: seq<Window>, t: int)
    requires Separated(ws, 0) && Follows(ws, 0)
    ensures Covered(Gaps(ws), t) <==> 0 <= t < LastEnd(ws) && !Covered(ws, t)
  {
    if ws == [] {
    } else {
      var init, last := ws[..|ws| - 1], ws[|ws| - 1];
      assert ws == init + [last];
      GapsCover(init, t);
      CoveredAppend(init, last, t);
      CoveredAppend(Gaps(init), Window(LastEnd(init), last.start), t);
      LastEndBefore(ws);
      if LastEnd(init) <= t {
        CoveredBeforeEnd(init, t);
      }
    }
  }

  lemma {:induction false} CoveredBeforeEnd(ws: seq<Window>, t: int)
    requires Separated(ws, 0) && LastEnd(ws) <= t
    ensures !Covered(ws, t)
  {
    forall i | 0 <= i < |ws|
      ensures !ws[i].Has(t)
    {
      assert i < |ws| - 1 ==> ws[i].end < ws[|ws| - 1].start;
    }
  }

  lemma {:induction false} LastEndBefore(ws: seq<Window>)
    requires Separated(ws, 0) && Follows(ws, 0) && ws != []
    ensures 0 <= LastEnd(ws[..|ws| - 1]) <= ws[|ws| - 1].start
  {
    assert |ws| > 1 ==> ws[|ws| - 2].end < ws[|ws| - 1].start;
  }

  lemma {:induction false} AddGapDisjoint(kept: seq<Window>, from: int, to: int)
    requires Disjoint(kept) && Follows(kept, 0) && EndsBy(kept, from) && 0 <= from <= to
    ensures Disjoint(AddGap(kept, from, to)) && Follows(AddGap(kept, from, to), 0)
    ensures EndsBy(AddGap(kept, from, to), to)
  {
  }

  lemma {:induction false} GapsDisjoint(ws: seq<Window>)
    requires Separated(ws, 0) && Follows(ws, 0)
    ensures Disjoint(Gaps(ws)) && Follows(Gaps(ws), 0) && EndsBy(Gaps(ws), LastEnd(ws))
    ensures 0 <= LastEnd(ws)
  {
    if ws == [] {
    } else {
      var init, last := ws[..|ws| - 1], ws[|ws| - 1];
      GapsDisjoint(init);
      LastEndBefore(ws);
      AddGapDisjoint(Gaps(init), LastEnd(init), last.start);
    }
  }

  /** Removing merged windows partitions the file exactly when no window starts after its end. */
  lemma {:induction false} KeepPartitions(ws: seq<Window>, duration: nat)
    requires Separated(ws, 0) && Follows(ws, 0)
    ensures Disjoint(Keep(ws, duration)) && Follows(Keep(ws, duration), 0)
    ensures Partitions(Keep(ws, duration), ws, duration)
            <==> forall i :: 0 <= i < |ws| ==> ws[i].start <= duration
  {
    GapsDisjoint(ws);
    if forall i :: 0 <= i < |ws| ==> ws[i].start <= duration {
      forall t
        ensures Covered(Keep(ws, duration), t) <==> 0 <= t < duration && !Covered(ws, t)
      {
        KeepCovers(ws, duration, t);
      }
    } else {
      var n := |ws|;
      var i :| 0 <= i < n && ws[i].start > duration;
      assert i < n - 1 ==> ws[i].end < ws[n - 1].start;
      KeepOverruns(ws, duration);
    }
  }

  lemma {:induction false} KeepCovers(ws: seq<Window>, duration: nat, t: int)
    requires Separated(ws, 0) && Follows(ws, 0)
    requires ws != [] ==> ws[|ws| - 1].start <= duration
    ensures Covered(Keep(ws, duration), t) <==> 0 <= t < duration && !Covered(ws, t)
  {
    GapsCover(ws, t);
    GapsDisjoint(ws);
    CoveredAppend(Gaps(ws), Window(LastEnd(ws), duration), t);
    if LastEnd(ws) <= t {
      CoveredBeforeEnd(ws, t);
    } else if duration <= t {
      assert ws[|ws| - 1].Has(t);
    }
  }

  /** A window starting after the end of the file keeps audio that is not there. */
  lemma {:induction false} KeepOverruns(ws: seq<Window>, duration: nat)
    requires Separated(ws, 0) && Follows(ws, 0) && ws != [] && ws[|ws| - 1].start > duration
    ensures !Partitions(Keep(ws, duration), ws, duration)
  {
    var last := ws[|ws| - 1];
    GapsCover(ws, last.start - 1);
    forall i | 0 <= i < |ws|
      ensures !ws[i].Has(last.start - 1)
    {
      assert i < |ws| - 1 ==> ws[i].end < ws[|ws| - 1].start;
    }
    assert Covered(Keep(ws, duration), last.start - 1);
  }

  lemma {:induction false} GapsLength(ws: seq<Window>)
    requires Separated(ws, 0) && Follows(ws, 0)
    ensures TotalLength(Gaps(ws)) + TotalLength(ws) == LastEnd(ws)
  {
    if ws == [] {
    } else {
      var init, last := ws[..|ws| - 1], ws[|ws| - 1];
      GapsLength(init);
      TotalLengthAppend(Gaps(init), Window(LastEnd(init), last.start));
      LastEndBefore(ws);
    }
  }

  lemma {:induction false} TotalLengthAppend(ws: seq<Window>, w: Window)
    ensures TotalLength(ws + [w]) == TotalLength(ws) + w.Length()
  {
    assert (ws + [w])[..|ws|] == ws;
  }

  /** Kept and removed time add up to the file exactly when the last window ends inside it. */
  lemma {:induction false} KeepConserves(ws: seq<Window>, duration: nat)
    requires Separated(ws, 0) && Follows(ws, 0)
    ensures TotalLength(Keep(ws, duration)) + TotalLength(ws) == duration <==> LastEnd(ws) <= duration
  {
    GapsLength(ws);
    TotalLengthAppend(Gaps(ws), Window(LastEnd(ws), duration));
  }

  // ---------- the fading cut ----------

  datatype Fade = NoFade | FadeOut | FadeIn

  datatype Stream = Stream(source: Window, fade: Fade)

  function FadeOutOf(w: Window, fade: nat): Stream {
    Stream(Window(w.start, Min(w.start + fade, w.end)), FadeOut)
  }

  /** Subtraction saturates at zero, as it does on unsigned times. */
  function FadeInOf(w: Window, fade: nat): Stream {
    Stream(Window(Max(0, w.end - fade), w.end), FadeIn)
  }

  function AddPlain(streams: seq<Stream>, from: int, to: int): seq<Stream> {
    if to > from then streams + [Stream(Window(from, to), NoFade)] else streams
  }

  /** The streams up to the end of the last window. */
  function Edges(ws: seq<Window>, fade: nat): seq<Stream> {
    if ws == [] then []
    else
      var w := ws[|ws| - 1];
      AddPlain(Edges(ws[..|ws| - 1], fade), LastEnd(ws[..|ws| - 1]), w.start)
      + [FadeOutOf(w, fade)] + [FadeInOf(w, fade)]
  }

  /** Only streams of positive length reach the filter graph. */
  function Audible(streams: seq<Stream>): seq<Stream> {
    if streams == [] then []
    else
      var init, last := streams[..|streams| - 1], streams[|streams| - 1];
      if last.source.Nonempty() then Audible(init) + [last] else Audible(init)
  }

  function FadePlan(ws: seq<Window>, duration: int, fade: nat): seq<Stream> {
    Audible(AddPlain(Edges(ws, fade), LastEnd(ws), duration))
  }

  /** The planned streams: kept stretches, and the two faded edges of every window. */
  method PlanStreams(windows: seq<Window>, duration: nat, fade: nat) returns (streams: seq<Stream>)
    ensures streams == AddPlain(Edges(windows, fade), LastEnd(windows), duration)
  {
    streams := [];
    var lastEnd := 0;
    for i := 0 to |windows|
      invariant streams == Edges(windows[..i], fade) && lastEnd == LastEnd(windows[..i])
    {
      assert windows[..i + 1][..i] == windows[..i];
      var w := windows[i];
      if w.start > lastEnd {
        streams := streams + [Stream(Window(lastEnd, w.start), NoFade)];
      }
      streams := streams + [FadeOutOf(w, fade)];
      streams := streams + [FadeInOf(w, fade)];
      lastEnd := w.end;
    }
    assert windows[..|windows|] == windows;
    if lastEnd < duration {
      streams := streams + [Stream(Window(lastEnd, duration), NoFade)];
    }
  }

  /** The streams the fading cut plays; playing none is the error "nothing left to keep". */
  method CutAudioWithFade(windows: seq<Window>, duration: nat, fade: nat)
    returns (plan: Option<seq<Stream>>)
    ensures plan == if FadePlan(windows, duration, fade) == [] then None
                    else Some(FadePlan(windows, duration, fade))
    ensures plan.Some? && Follows(windows, 0) && (forall i :: 0 <= i < |windows| ==> 0 <= windows[i].end) ==>
              forall i :: 0 <= i < |plan.value| ==> 0 <= plan.value[i].source.start < plan.value[i].source.end
  {
    var streams := PlanStreams(windows, duration, fade);
    var labels := [];
    for i := 0 to |streams|
      invariant labels == Audible(streams[..i])
    {
      assert streams[..i + 1][..i] == streams[..i];
      if streams[i].source.end <= streams[i].source.start {
        continue;
      }
      labels := labels + [streams[i]];
    }
    assert streams[..|streams|] == streams;
    plan := if labels == [] then None else Some(labels);
    if Follows(windows, 0) && forall i :: 0 <= i < |windows| ==> 0 <= windows[i].end {
      EdgesFromZero(windows, fade);
      LastEndFromZero(windows);
      AudibleFromZero(streams);
    }
  }

  /** No stream starts before the file. */
  ghost predicate FromZero(streams: seq<Stream>) {
    forall i :: 0 <= i < |streams| ==> 0 <= streams[i].source.start
  }

  lemma {:induction false} LastEndFromZero(ws: seq<Window>)
    requires forall i :: 0 <= i < |ws| ==> 0 <= ws[i].end
    ensures 0 <= LastEnd(ws)
  {
  }

  lemma {:induction false} EdgesFromZero(ws: seq<Window>, fade: nat)
    requires Follows(ws, 0) && forall i :: 0 <= i < |ws| ==> 0 <= ws[i].end
    ensures FromZero(Edges(ws, fade))
  {
    if ws != [] {
      EdgesFromZero(ws[..|ws| - 1], fade);
      LastEndFromZero(ws[..|ws| - 1]);
    }
  }

  lemma {:induction false} AudibleFromZero(streams: seq<Stream>)
    requires FromZero(streams)
    ensures FromZero(Audible(streams))
    ensures forall i :: 0 <= i < |Audible(streams)| ==> Audible(streams)[i].source.Nonempty()
  {
    if streams != [] {
      AudibleFromZero(streams[..|streams| - 1]);
    }
  }

  lemma {:induction false} AudibleAppend(streams: seq<Stream>, s: Stream)
    ensures Audible(streams + [s]) == if s.source.Nonempty() then Audible(streams) + [s] else Audible(streams)
  {
    assert (streams + [s])[..|streams|] == streams;
  }

  /** An audible plan with one more window: a fade of zero leaves its edges out. */
  function Grow(played: seq<Stream>, lastEnd: int, w: Window, fade: nat): seq<Stream> {
    var before := AddPlain(played, lastEnd, w.start);
    if fade == 0 then before else before + [FadeOutOf(w, fade)] + [FadeInOf(w, fade)]
  }

  lemma {:induction false} AudibleEdgesStep(ws: seq<Window>, fade: nat)
    requires ws != [] && 0 <= ws[|ws| - 1].start < ws[|ws| - 1].end
    ensures Audible(Edges(ws, fade))
         == Grow(Audible(Edges(ws[..|ws| - 1], fade)), LastEnd(ws[..|ws| - 1]), ws[|ws| - 1], fade)
  {
    var init, w := ws[..|ws| - 1], ws[|ws| - 1];
    var lead := AddPlain(Edges(init, fade), LastEnd(init), w.start);
    AudibleAppend(Edges(init, fade), Stream(Window(LastEnd(init), w.start), NoFade));
    AudibleAppend(lead, FadeOutOf(w, fade));
    AudibleAppend(lead + [FadeOutOf(w, fade)], FadeInOf(w, fade));
  }

  /** The audible plan of a whole file is the audible edges and the audible tail. */
  lemma {:induction false} AudiblePlan(ws: seq<Window>, duration: int, fade: nat)
    ensures FadePlan(ws, duration, fade) == AddPlain(Audible(Edges(ws, fade)), LastEnd(ws), duration)
  {
    AudibleAppend(Edges(ws, fade), Stream(Window(LastEnd(ws), duration), NoFade));
  }

  /** Source ranges are played in order and none is played twice. */
  ghost predicate NeverReplays(streams: seq<Stream>) {
    forall i, j :: 0 <= i < j < |streams| ==> streams[i].source.end <= streams[j].source.start
  }

  ghost predicate PlayedBy(streams: seq<Stream>, t: int) {
    forall i :: 0 <= i < |streams| ==> streams[i].source.end <= t
  }

  predicate LongEnough(ws: seq<Window>, fade: nat) {
    forall i :: 0 <= i < |ws| ==> 2 * fade <= ws[i].Length()
  }

  lemma {:induction false} NeverReplaysAppend(streams: seq<Stream>, s: Stream)
    requires NeverReplays(streams) && PlayedBy(streams, s.source.start) && s.source.start <= s.source.end
    ensures NeverReplays(streams + [s]) && PlayedBy(streams + [s], s.source.end)
  {
  }

  lemma {:induction false} LongWindowsNeverReplay(ws: seq<Window>, fade: nat)
    requires Separated(ws, 0) && Follows(ws, 0) && LongEnough(ws, fade)
    ensures NeverReplays(Audible(Edges(ws, fade)))
    ensures PlayedBy(Audible(Edges(ws, fade)), LastEnd(ws))
  {
    if ws == [] {
    } else {
      var init, w := ws[..|ws| - 1], ws[|ws| - 1];
      LongWindowsNeverReplay(init, fade);
      AudibleEdgesStep(ws, fade);
      LastEndBefore(ws);
      NeverReplaysGrow(Audible(Edges(init, fade)), LastEnd(init), w, fade);
    }
  }

  lemma {:induction false} NeverReplaysGrow(played: seq<Stream>, lastEnd: int, w: Window, fade: nat)
    requires NeverReplays(played) && PlayedBy(played, lastEnd)
    requires lastEnd <= w.start < w.end && 2 * fade <= w.Length() && 0 <= w.start
    ensures NeverReplays(Grow(played, lastEnd, w, fade)) && PlayedBy(Grow(played, lastEnd, w, fade), w.end)
  {
    var before := AddPlain(played, lastEnd, w.start);
    if lastEnd < w.start {
      NeverReplaysAppend(played, Stream(Window(lastEnd, w.start), NoFade));
    }
    NeverReplaysAppend(before, FadeOutOf(w, fade));
    NeverReplaysAppend(before + [FadeOutOf(w, fade)], FadeInOf(w, fade));
  }

  ghost predicate ReplaysAt(streams: seq<Stream>, k: nat) {
    k + 1 < |streams| && streams[k].source.end > streams[k + 1].source.start
  }

  lemma {:induction false} GrowReplays(played: seq<Stream>, lastEnd: int, w: Window, fade: nat) returns (k: nat)
    requires 0 <= w.start < w.end && w.Length() < 2 * fade
    ensures ReplaysAt(Grow(played, lastEnd, w, fade), k)
  {
    k := |AddPlain(played, lastEnd, w.start)|;
  }

  lemma {:induction false} GrowKeepsReplay(played: seq<Stream>, lastEnd: int, w: Window, fade: nat, k: nat)
    requires ReplaysAt(played, k)
    ensures ReplaysAt(Grow(played, lastEnd, w, fade), k)
  {
  }

  /** A window too short for its two fades plays its own middle twice. */
  lemma {:induction false} ShortWindowReplays(ws: seq<Window>, fade: nat, i: nat) returns (k: nat)
    requires Separated(ws, 0) && Follows(ws, 0)
    requires i < |ws| && ws[i].Length() < 2 * fade
    ensures ReplaysAt(Audible(Edges(ws, fade)), k)
    decreases |ws|
  {
    var init, w := ws[..|ws| - 1], ws[|ws| - 1];
    AudibleEdgesStep(ws, fade);
    if i < |init| {
      k := ShortWindowReplays(init, fade, i);
      GrowKeepsReplay(Audible(Edges(init, fade)), LastEnd(init), w, fade, k);
    } else {
      k := GrowReplays(Audible(Edges(init, fade)), LastEnd(init), w, fade);
    }
  }

  /** The fading cut never replays audio exactly when every merged window is at least twice the fade. */
  lemma {:induction false} FadePlanReplay(ws: seq<Window>, duration: nat, fade: nat)
    requires Separated(ws, 0) && Follows(ws, 0)
    ensures NeverReplays(FadePlan(ws, duration, fade)) <==> LongEnough(ws, fade)
  {
    AudiblePlan(ws, duration, fade);
    if LongEnough(ws, fade) {
      LongWindowsNeverReplay(ws, fade);
      if LastEnd(ws) < duration {
        NeverReplaysAppend(Audible(Edges(ws, fade)), Stream(Window(LastEnd(ws), duration), NoFade));
      }
    } else {
      var i :| 0 <= i < |ws| && ws[i].Length() < 2 * fade;
      var k := ShortWindowReplays(ws, fade, i);
      var plan := FadePlan(ws, duration, fade);
      assert plan[k].source.end > plan[k + 1].source.start;
    }
  }

  function PlayedTime(streams: seq<Stream>): int {
    if streams == [] then 0
    else PlayedTime(streams[..|streams| - 1]) + streams[|streams| - 1].source.Length()
  }

  lemma {:induction false} PlayedTimeAppend(streams: seq<Stream>, s: Stream)
    ensures PlayedTime(streams + [s]) == PlayedTime(streams) + s.source.Length()
  {
    assert (streams + [s])[..|streams|] == streams;
  }

  /** Time the removal windows lose once their two faded edges are kept. */
  function FadedRemoval(ws: seq<Window>, fade: nat): int {
    if ws == [] then 0
    else FadedRemoval(ws[..|ws| - 1], fade) + (ws[|ws| - 1].Length() - 2 * fade)
  }

  lemma {:induction false} GrowTime(played: seq<Stream>, lastEnd: int, w: Window, fade: nat)
    requires lastEnd <= w.start && 0 <= w.start < w.end && 2 * fade <= w.Length()
    ensures PlayedTime(Grow(played, lastEnd, w, fade)) == PlayedTime(played) + (w.start - lastEnd) + 2 * fade
  {
    var before := AddPlain(played, lastEnd, w.start);
    PlayedTimeAppend(played, Stream(Window(lastEnd, w.start), NoFade));
    PlayedTimeAppend(before, FadeOutOf(w, fade));
    PlayedTimeAppend(before + [FadeOutOf(w, fade)], FadeInOf(w, fade));
  }

  lemma {:induction false} EdgesTime(ws: seq<Window>, fade: nat)
    requires Separated(ws, 0) && Follows(ws, 0) && LongEnough(ws, fade)
    ensures PlayedTime(Audible(Edges(ws, fade))) == LastEnd(ws) - FadedRemoval(ws, fade)
  {
    if ws == [] {
    } else {
      var init, w := ws[..|ws| - 1], ws[|ws| - 1];
      EdgesTime(init, fade);
      AudibleEdgesStep(ws, fade);
      LastEndBefore(ws);
      GrowTime(Audible(Edges(init, fade)), LastEnd(init), w, fade);
    }
  }

  /** With windows long enough for their fades, the output lasts the file minus each window's
      unfaded middle exactly when the last window ends inside the file. */
  lemma {:induction false} FadePlanLength(ws: seq<Window>, duration: nat, fade: nat)
    requires Separated(ws, 0) && Follows(ws, 0) && LongEnough(ws, fade)
    ensures PlayedTime(FadePlan(ws, duration, fade)) == duration - FadedRemoval(ws, fade)
            <==> LastEnd(ws) <= duration
  {
    AudiblePlan(ws, duration, fade);
    EdgesTime(ws, fade);
    PlayedTimeAppend(Audible(Edges(ws, fade)), Stream(Window(LastEnd(ws), duration), NoFade));
  }

  function Sources(streams: seq<Stream>): seq<Window> {
    if streams == [] then [] else Sources(streams[..|streams| - 1]) + [streams[|streams| - 1].source]
  }

  lemma {:induction false} SourcesOfPlain(streams: seq<Stream>, from: int, to: int)
    ensures Sources(AddPlain(streams, from, to)) == AddGap(Sources(streams), from, to)
  {
    assert (streams + [Stream(Window(from, to), NoFade)])[..|streams|] == streams;
  }

  lemma {:induction false} ZeroFadeEdges(ws: seq<Window>)
    requires Separated(ws, 0) && Follows(ws, 0)
    ensures Sources(Audible(Edges(ws, 0))) == Gaps(ws)
  {
    if ws == [] {
    } else {
      var init := ws[..|ws| - 1];
      AudibleEdgesStep(ws, 0);
      ZeroFadeEdges(init);
      SourcesOfPlain(Audible(Edges(init, 0)), LastEnd(init), ws[|ws| - 1].start);
    }
  }

  /** A fade of zero plays exactly the segments of the exact cut. */
  lemma {:induction false} ZeroFadeIsExactCut(ws: seq<Window>, duration: nat)
    requires Separated(ws, 0) && Follows(ws, 0)
    ensures Sources(FadePlan(ws, duration, 0)) == Keep(ws, duration)
  {
    ZeroFadeEdges(ws);
    AudiblePlan(ws, duration, 0);
    SourcesOfPlain(Audible(Edges(ws, 0)), LastEnd(ws), duration);
  }

  /** Some stream with this fade plays the source time `t`. */
  ghost predicate Plays(streams: seq<Stream>, fade: Fade, t: int) {
    exists i :: 0 <= i < |streams| && streams[i].fade == fade && streams[i].source.Has(t)
  }

  lemma {:induction false} PlaysAppend(streams: seq<Stream>, s: Stream, fade: Fade, t: int)
    ensures Plays(streams + [s], fade, t) <==> Plays(streams, fade, t) || (s.fade == fade && s.source.Has(t))
  {
    if Plays(streams, fade, t) {
      var i :| 0 <= i < |streams| && streams[i].fade == fade && streams[i].source.Has(t);
      assert (streams + [s])[i] == streams[i];
    }
    assert (streams + [s])[|streams|] == s;
  }

  lemma {:induction false} PlaysAudible(streams: seq<Stream>, fade: Fade, t: int)
    ensures Plays(Audible(streams), fade, t) <==> Plays(streams, fade, t)
  {
    if streams == [] {
    } else {
      var init, last := streams[..|streams| - 1], streams[|streams| - 1];
      assert streams == init + [last];
      PlaysAudible(init, fade, t);
      PlaysAppend(init, last, fade, t);
      PlaysAppend(Audible(init), last, fade, t);
    }
  }

  ghost predicate NearStart(ws: seq<Window>, fade: nat, t: int) {
    exists i :: 0 <= i < |ws| && ws[i].Has(t) && t < ws[i].start + fade
  }

  ghost predicate NearEnd(ws: seq<Window>, fade: nat, t: int) {
    exists i :: 0 <= i < |ws| && ws[i].end - fade <= t < ws[i].end
  }

  lemma {:induction false} NearAppend(ws: seq<Window>, w: Window, fade: nat, t: int)
    ensures NearStart(ws + [w], fade, t) <==> NearStart(ws, fade, t) || (w.Has(t) && t < w.start + fade)
    ensures NearEnd(ws + [w], fade, t) <==> NearEnd(ws, fade, t) || w.end - fade <= t < w.end
  {
    var all := ws + [w];
    assert all[|ws|] == w;
    if NearStart(ws, fade, t) {
      var i :| 0 <= i < |ws| && ws[i].Has(t) && t < ws[i].start + fade;
      assert all[i] == ws[i];
    }
    if NearEnd(ws, fade, t) {
      var i :| 0 <= i < |ws| && ws[i].end - fade <= t < ws[i].end;
      assert all[i] == ws[i];
    }
  }

  ghost predicate PlansFor(streams: seq<Stream>, kept: seq<Window>, ws: seq<Window>, fade: nat, t: int) {
    && (Plays(streams, NoFade, t) <==> Covered(kept, t))
    && (Plays(streams, FadeOut, t) <==> NearStart(ws, fade, t))
    && (Plays(streams, FadeIn, t) <==> NearEnd(ws, fade, t))
  }

  lemma {:induction false} AddPlainPlans(streams: seq<Stream>, kept: seq<Window>, ws: seq<Window>, fade: nat, t: int,
                                         from: int, to: int)
    requires PlansFor(streams, kept, ws, fade, t)
    ensures PlansFor(AddPlain(streams, from, to), AddGap(kept, from, to), ws, fade, t)
  {
    var s := Stream(Window(from, to), NoFade);
    PlaysAppend(streams, s, NoFade, t);
    PlaysAppend(streams, s, FadeOut, t);
    PlaysAppend(streams, s, FadeIn, t);
    CoveredAppend(kept, Window(from, to), t);
  }

  lemma {:induction false} AddEdgesPlans(streams: seq<Stream>, kept: seq<Window>, ws: seq<Window>, w: Window, fade: nat,
                                         t: nat)
    requires PlansFor(streams, kept, ws, fade, t)
    ensures PlansFor(streams + [FadeOutOf(w, fade)] + [FadeInOf(w, fade)], kept, ws + [w], fade, t)
  {
    var outOf, into := FadeOutOf(w, fade), FadeInOf(w, fade);
    forall f
      ensures Plays(streams + [outOf] + [into], f, t)
              <==> (Plays(streams, f, t) || (f == FadeOut && outOf.source.Has(t))
                    || (f == FadeIn && into.source.Has(t)))
    {
      PlaysAppend(streams, outOf, f, t);
      PlaysAppend(streams + [outOf], into, f, t);
    }
    NearAppend(ws, w, fade, t);
  }

  lemma {:induction false} EdgesPlan(ws: seq<Window>, fade: nat, t: nat)
    ensures PlansFor(Edges(ws, fade), Gaps(ws), ws, fade, t)
  {
    if ws == [] {
    } else {
      var init, w := ws[..|ws| - 1], ws[|ws| - 1];
      assert ws == init + [w];
      EdgesPlan(init, fade, t);
      AddPlainPlans(Edges(init, fade), Gaps(init), init, fade, t, LastEnd(init), w.start);
      AddEdgesPlans(AddPlain(Edges(init, fade), LastEnd(init), w.start), Gaps(ws), init, w, fade, t);
    }
  }

  /** What the fading cut plays: the kept audio unfaded, the first `fade` milliseconds of each
      window fading out, and the last `fade` milliseconds before each window's end fading in. */
  lemma {:induction false} FadePlanPlays(ws: seq<Window>, duration: nat, fade: nat, t: nat)
    ensures Plays(FadePlan(ws, duration, fade), NoFade, t) <==> Covered(Keep(ws, duration), t)
    ensures Plays(FadePlan(ws, duration, fade), FadeOut, t) <==> NearStart(ws, fade, t)
    ensures Plays(FadePlan(ws, duration, fade), FadeIn, t) <==> NearEnd(ws, fade, t)
  {
    var streams := AddPlain(Edges(ws, fade), LastEnd(ws), duration);
    EdgesPlan(ws, fade, t);
    AddPlainPlans(Edges(ws, fade), Gaps(ws), ws, fade, t, LastEnd(ws), duration);
    PlaysAudible(streams, NoFade, t);
    PlaysAudible(streams, FadeOut, t);
    PlaysAudible(streams, FadeIn, t);
  }
}
