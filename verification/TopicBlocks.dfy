/** Grouping an episode's transcript into topic blocks of bounded length for the chapter planner, and
    fitting each block's text into a character budget. Times are milliseconds. */
module TopicBlocks {
  import opened Basics

  const ROUND_MS := 30_000
  const SEPARATOR := " ... "

  datatype Segment = Segment(seqNum: int, startMs: int, endMs: int, text: string)

  datatype Block = Block(startMs: int, endMs: int, parts: seq<string>)

  datatype TopicBlock = TopicBlock(blockIndex: nat, startMs: int, endMs: int, text: string)

  /** Text handling that depends on Unicode white space and number formatting. */
  datatype TextOps = TextOps(normalize: string -> string, trim: string -> string, marker: int -> string)

  // ---------- the block window ----------

  function MinBlockMs(minSeconds: int): int { Max(minSeconds * 1000, 1) }

  function MaxBlockMs(minSeconds: int, maxSeconds: int): int { Max(maxSeconds * 1000, MinBlockMs(minSeconds)) }

  /** The episode divided by the wanted number of blocks, clamped, rounded up to half minutes, and
      clamped again from above. */
  function BlockWindow(totalMs: int, targetCount: int, minSeconds: int, maxSeconds: int): int {
    var raw := Max(Max(totalMs, 1) / Max(targetCount, 1), 1);
    var lo, hi := MinBlockMs(minSeconds), MaxBlockMs(minSeconds, maxSeconds);
    var clamped := Min(hi, Max(lo, raw));
    var rounded := Max(ROUND_MS, (clamped + ROUND_MS - 1) / ROUND_MS * ROUND_MS);
    Min(hi, rounded)
  }

  /** The window lies between the least and the greatest block length, is whole half minutes unless it
      is the greatest length, and is less than half a minute above what the target asks for. */
  lemma {:induction false} BlockWindowBounds(totalMs: int, targetCount: int, minSeconds: int, maxSeconds: int)
    ensures var w := BlockWindow(totalMs, targetCount, minSeconds, maxSeconds);
            && MinBlockMs(minSeconds) <= w <= MaxBlockMs(minSeconds, maxSeconds)
            && (w % ROUND_MS == 0 || w == MaxBlockMs(minSeconds, maxSeconds))
            && w < Max(MinBlockMs(minSeconds), Max(Max(totalMs, 1) / Max(targetCount, 1), 1)) + ROUND_MS
  {
  }

  /** The exact window: the wanted length, between the least and the greatest, is rounded up to half minutes, and the
      greatest length stands where that is more. */
  lemma {:induction false} BlockWindowExact(totalMs: int, targetCount: int, minSeconds: int, maxSeconds: int,
                                            halves: int)
    requires var least := Max(minSeconds * 1000, 1);
             var greatest := Max(maxSeconds * 1000, least);
             var wanted := Max(Max(totalMs, 1) / Max(targetCount, 1), 1);
             (halves - 1) * 30_000 < Min(greatest, Max(least, wanted)) <= halves * 30_000
    ensures BlockWindow(totalMs, targetCount, minSeconds, maxSeconds)
         == Min(Max(maxSeconds * 1000, Max(minSeconds * 1000, 1)), halves * 30_000)
  {
    var least := Max(minSeconds * 1000, 1);
    var greatest := Max(maxSeconds * 1000, least);
    var clamped := Min(greatest, Max(least, Max(Max(totalMs, 1) / Max(targetCount, 1), 1)));
    RoundedUp(clamped, halves);
  }

  lemma {:induction false} RoundedUp(x: int, halves: int)
    requires 0 < x && (halves - 1) * 30_000 < x <= halves * 30_000
    ensures (x + ROUND_MS - 1) / ROUND_MS == halves
  {
  }

  // ---------- grouping segments ----------

  function SegmentEnd(seg: Segment): int { Max(seg.endMs, seg.startMs) }

  /** What a segment adds to its block's text: nothing when it is blank. */
  function PartOf(ops: TextOps, seg: Segment, markers: bool): seq<string> {
    var text := ops.normalize(seg.text);
    if text == "" then [] else if markers then ["[s" + ops.marker(seg.seqNum) + "] " + text] else [text]
  }

  /** The segment stays in the block unless it starts a whole window after it. */
  function Place(blocks: seq<Block>, seg: Segment, part: seq<string>, window: int): seq<Block> {
    if blocks == [] then [Block(seg.startMs, SegmentEnd(seg), part)]
    else
      var last := blocks[|blocks| - 1];
      if seg.startMs - last.startMs >= window then blocks + [Block(seg.startMs, SegmentEnd(seg), part)]
      else blocks[|blocks| - 1 := Block(last.startMs, Max(last.endMs, SegmentEnd(seg)), last.parts + part)]
  }

  function Group(ops: TextOps, segments: seq<Segment>, window: int, markers: bool): (blocks: seq<Block>)
    ensures blocks == [] <==> segments == []
  {
    if segments == [] then []
    else
      var last := segments[|segments| - 1];
      Place(Group(ops, segments[..|segments| - 1], window, markers), last, PartOf(ops, last, markers), window)
  }

  /** The grouping loop: `current` is the open block, `blocks` the finished ones. */
  method GroupSegments(ops: TextOps, segments: seq<Segment>, window: int, markers: bool) returns (blocks: seq<Block>)
    ensures blocks == Group(ops, segments, window, markers)
  {
    blocks := [];
    var current: Option<Block> := None;
    for i := 0 to |segments|
      invariant current.None? <==> i == 0
      invariant current.None? ==> blocks == []
      invariant current.Some? ==> Group(ops, segments[..i], window, markers) == blocks + [current.value]
    {
      assert segments[..i + 1][..i] == segments[..i];
      var seg := segments[i];
      var part := PartOf(ops, seg, markers);
      assert [] + part == part;
      if current.Some? {
        if seg.startMs - current.value.startMs >= window {
          blocks := blocks + [current.value];
          current := Some(Block(seg.startMs, SegmentEnd(seg), []));
        } else {
          current := Some(current.value.(endMs := Max(current.value.endMs, SegmentEnd(seg))));
        }
      } else {
        current := Some(Block(seg.startMs, SegmentEnd(seg), []));
      }
      current := Some(current.value.(parts := current.value.parts + part));
    }
    assert segments[..|segments|] == segments;
    if current.Some? {
      blocks := blocks + [current.value];
    }
  }

  /** Block starts are at least one window apart. */
  ghost predicate Spaced(blocks: seq<Block>, window: int) {
    forall i, j :: 0 <= i < j < |blocks| ==> blocks[i].startMs + window <= blocks[j].startMs
  }

  lemma {:induction false} GroupSpaced(ops: TextOps, segments: seq<Segment>, window: int, markers: bool)
    requires 0 <= window
    ensures Spaced(Group(ops, segments, window, markers), window)
    ensures segments != [] ==> Group(ops, segments, window, markers)[0].startMs == segments[0].startMs
  {
    if segments != [] {
      var n := |segments| - 1;
      GroupSpaced(ops, segments[..n], window, markers);
      var before := Group(ops, segments[..n], window, markers);
      assert forall i :: 0 <= i < |before| - 1 ==> before[i].startMs + window <= before[|before| - 1].startMs;
    }
  }

  function AllParts(ops: TextOps, segments: seq<Segment>, markers: bool): seq<string> {
    if segments == [] then []
    else AllParts(ops, segments[..|segments| - 1], markers) + PartOf(ops, segments[|segments| - 1], markers)
  }

  function Flatten(blocks: seq<Block>): seq<string> {
    if blocks == [] then [] else Flatten(blocks[..|blocks| - 1]) + blocks[|blocks| - 1].parts
  }

  /** Every segment's text ends up in exactly one block, in transcript order. */
  lemma {:induction false} GroupKeepsText(ops: TextOps, segments: seq<Segment>, window: int, markers: bool)
    ensures Flatten(Group(ops, segments, window, markers)) == AllParts(ops, segments, markers)
  {
    if segments != [] {
      var n := |segments| - 1;
      GroupKeepsText(ops, segments[..n], window, markers);
      PlaceKeepsText(Group(ops, segments[..n], window, markers), segments[n], PartOf(ops, segments[n], markers),
                     window);
    }
  }

  lemma {:induction false} PlaceKeepsText(blocks: seq<Block>, seg: Segment, part: seq<string>, window: int)
    ensures Flatten(Place(blocks, seg, part, window)) == Flatten(blocks) + part
  {
    var placed := Place(blocks, seg, part, window);
    if blocks == [] {
      assert placed[..0] == [];
    } else {
      assert placed[..|placed| - 1] == blocks || placed[..|placed| - 1] == blocks[..|blocks| - 1];
    }
  }

  ghost predicate StartsSorted(segments: seq<Segment>) {
    forall i, j :: 0 <= i < j < |segments| ==> segments[i].startMs <= segments[j].startMs
  }

  ghost predicate Holds(b: Block, seg: Segment, window: int) {
    && b.startMs <= seg.startMs && SegmentEnd(seg) <= b.endMs
    && (seg.startMs < b.startMs + window || seg.startMs == b.startMs)
  }

  lemma {:induction false} PlaceHolds(blocks: seq<Block>, seg: Segment, part: seq<string>, window: int)
    requires blocks != [] ==> blocks[|blocks| - 1].startMs <= seg.startMs
    ensures var placed := Place(blocks, seg, part, window); Holds(placed[|placed| - 1], seg, window)
  {
  }

  lemma {:induction false} PlaceKeepsHold(blocks: seq<Block>, seg: Segment, part: seq<string>, window: int, k: nat,
                                          earlier: Segment)
    requires k < |blocks| && Holds(blocks[k], earlier, window)
    ensures k < |Place(blocks, seg, part, window)| && Holds(Place(blocks, seg, part, window)[k], earlier, window)
  {
  }

  lemma {:induction false} LastStart(ops: TextOps, segments: seq<Segment>, window: int, markers: bool)
    requires StartsSorted(segments) && segments != []
    ensures var blocks := Group(ops, segments, window, markers);
            blocks[|blocks| - 1].startMs <= segments[|segments| - 1].startMs
  {
    var n := |segments| - 1;
    if n > 0 {
      LastStart(ops, segments[..n], window, markers);
      assert segments[n - 1].startMs <= segments[n].startMs;
    }
  }

  /** For start-sorted segments every segment lies inside a block that started less than a window
      before it. */
  lemma {:induction false} GroupHolds(ops: TextOps, segments: seq<Segment>, window: int, markers: bool, i: nat)
    returns (k: nat)
    requires StartsSorted(segments) && i < |segments|
    ensures k < |Group(ops, segments, window, markers)|
    ensures Holds(Group(ops, segments, window, markers)[k], segments[i], window)
  {
    hide Holds, PartOf, SegmentEnd;
    var n := |segments| - 1;
    var before, part := Group(ops, segments[..n], window, markers), PartOf(ops, segments[n], markers);
    if n > 0 {
      LastStart(ops, segments[..n], window, markers);
      assert segments[n - 1].startMs <= segments[n].startMs;
    }
    if i < n {
      k := GroupHolds(ops, segments[..n], window, markers, i);
      PlaceKeepsHold(before, segments[n], part, window, k, segments[i]);
    } else {
      PlaceHolds(before, segments[n], part, window);
      k := |Place(before, segments[n], part, window)| - 1;
    }
  }

  // ---------- the kept blocks ----------

  function BlockText(ops: TextOps, b: Block): string {
    ops.trim(JoinParts(b.parts))
  }

  /** Blocks with text; when no block has any, the first one alone. */
  function Nonempty(ops: TextOps, blocks: seq<Block>): seq<Block> {
    if blocks == [] then []
    else
      var init, last := blocks[..|blocks| - 1], blocks[|blocks| - 1];
      if BlockText(ops, last) != "" then Nonempty(ops, init) + [last] else Nonempty(ops, init)
  }

  function Kept(ops: TextOps, blocks: seq<Block>): seq<Block> {
    if Nonempty(ops, blocks) == [] then blocks[..Min(1, |blocks|)] else Nonempty(ops, blocks)
  }

  lemma {:induction false} NonemptySpaced(ops: TextOps, blocks: seq<Block>, window: int)
    requires Spaced(blocks, window) && 0 <= window
    ensures Spaced(Nonempty(ops, blocks), window)
    ensures forall i :: 0 <= i < |Nonempty(ops, blocks)| ==> Nonempty(ops, blocks)[i] in blocks
  {
    if blocks != [] {
      var init, last := blocks[..|blocks| - 1], blocks[|blocks| - 1];
      NonemptySpaced(ops, init, window);
      assert blocks == init + [last];
      forall i | 0 <= i < |Nonempty(ops, init)|
        ensures Nonempty(ops, init)[i].startMs + window <= last.startMs
      {
        assert Nonempty(ops, init)[i] in init;
        var k :| 0 <= k < |init| && init[k] == Nonempty(ops, init)[i];
        assert blocks[k].startMs + window <= blocks[|blocks| - 1].startMs;
      }
    }
  }

  // ---------- fitting text into a budget ----------

  /** How many opening characters to keep, and the later stretch [from, to) to keep with them. */
  function KeptChars(total: nat, maxChars: nat): (kept: (nat, nat, nat))
    requires |SEPARATOR| + 4 < maxChars < total
    ensures kept.0 <= kept.1 <= kept.2 <= total
    ensures kept.0 + |SEPARATOR| + (kept.2 - kept.1) == maxChars
    ensures kept.1 <= total / 2 < kept.2 && 0 <= (kept.2 - kept.1) - kept.0 <= 1
  {
    var available := maxChars - |SEPARATOR|;
    var head := available / 2;
    var mid := available - head;
    var midStart := Max(head, Max(0, total / 2 - mid / 2));
    var midEnd := Min(total, midStart + mid);
    (head, Max(head, Max(0, midEnd - mid)), midEnd)
  }

  /** The block's opening and a stretch around its midpoint. */
  function TruncateBlockText(text: string, maxChars: nat): string {
    if maxChars == 0 || |text| <= maxChars then text
    else if maxChars <= |SEPARATOR| + 4 then text[..maxChars]
    else
      var kept := KeptChars(|text|, maxChars);
      text[..kept.0] + SEPARATOR + text[kept.1..kept.2]
  }

  /** Text over budget is cut to exactly the budget; text within it, or with none, is unchanged. */
  lemma {:induction false} TruncateFits(text: string, maxChars: nat)
    ensures maxChars == 0 || |text| <= maxChars ==> TruncateBlockText(text, maxChars) == text
    ensures 0 < maxChars < |text| ==> |TruncateBlockText(text, maxChars)| == maxChars
  {
    if |SEPARATOR| + 4 < maxChars < |text| {
      var kept := KeptChars(|text|, maxChars);
      assert |text[kept.1..kept.2]| == kept.2 - kept.1;
    }
  }

  lemma {:induction false} JoinPartsLength(parts: seq<string>, part: string)
    ensures |JoinParts(parts + [part])| == |JoinParts(parts)| + |part| + (if parts == [] then 0 else 1)
  {
    assert (parts + [part])[..|parts|] == parts;
  }

  /** As many whole parts from `start` on as fit the budget together; a first part that does not fit alone is
      clipped to it. */
  ghost predicate IsRun(parts: seq<string>, start: nat, budget: nat, taken: seq<string>) {
    && 1 <= |taken| <= |parts| - start && |JoinParts(taken)| <= budget
    && (taken == parts[start..start + |taken|]
        || (|taken| == 1 && budget < |parts[start]| && taken[0] == parts[start][..budget]))
    && (start + |taken| < |parts| && taken == parts[start..start + |taken|] ==>
          |JoinParts(taken)| + 1 + |parts[start + |taken|]| > budget)
  }

  method TakeRun(parts: seq<string>, start: nat, budget: nat) returns (taken: seq<string>)
    requires start < |parts|
    ensures IsRun(parts, start, budget, taken)
  {
    taken := [];
    var used := 0;
    var p := start;
    while p < |parts|
      invariant start <= p <= |parts| && |taken| == p - start
      invariant taken == parts[start..p] && used == |JoinParts(taken)|
      invariant |taken| > 1 ==> used <= budget
    {
      var cost := |parts[p]| + if |taken| > 0 then 1 else 0;
      if |taken| > 0 && used + cost > budget {
        break;
      }
      JoinPartsLength(taken, parts[p]);
      taken := taken + [parts[p]];
      used := used + cost;
      p := p + 1;
    }
    if |taken| == 1 && used > budget {
      taken := [taken[0][..budget]];
    }
  }

  /** The text is a run from the head and a run from the middle on, or from where the head ends. */
  ghost predicate HeadAndMiddle(parts: seq<string>, maxChars: nat, text: string) {
    exists head, middle :: AreRuns(parts, if maxChars < 5 then 0 else maxChars - 5, head, middle)
                           && IsJoined(text, JoinParts(head), JoinParts(middle), maxChars)
  }

  /** Half of the room is for the run from the head, the rest for the one from the middle on. */
  ghost predicate AreRuns(parts: seq<string>, room: nat, head: seq<string>, middle: seq<string>) {
    && IsRun(parts, 0, room / 2, head)
    && var from := if |head| < |parts| / 2 then |parts| / 2 else |head|;
       if from < |parts| then IsRun(parts, from, room - room / 2, middle) else middle == []
  }

  ghost predicate IsJoined(text: string, head: string, middle: string, maxChars: nat) {
    if middle != "" then text == head + " ... " + middle
    else if |head| <= maxChars then text == head else text == head[..maxChars]
  }

  /** What the separator leaves of the budget. */
  function Available(maxChars: nat): (n: nat)
    ensures |SEPARATOR| <= maxChars ==> n + |SEPARATOR| == maxChars
  {
    if maxChars < |SEPARATOR| then 0 else maxChars - |SEPARATOR|
  }

  /** Fits a block's parts into the budget. */
  method TruncateBlockParts(ops: TextOps, parts: seq<string>, maxChars: nat) returns (text: string)
    ensures maxChars == 0 || |ops.trim(JoinParts(parts))| <= maxChars ==> text == ops.trim(JoinParts(parts))
    ensures 0 < maxChars < |ops.trim(JoinParts(parts))| && parts != [] ==> HeadAndMiddle(parts, maxChars, text)
    ensures 0 < maxChars ==> |text| <= maxChars
  {
    var joined := ops.trim(JoinParts(parts));
    if maxChars == 0 || |joined| <= maxChars {
      return joined;
    }
    if |parts| == 0 {
      return "";
    }
    var available := Available(maxChars);
    var headBudget := available / 2;
    var midBudget := available - headBudget;
    var headParts := TakeRun(parts, 0, headBudget);
    var anchor := if |headParts| < |parts| / 2 then |parts| / 2 else |headParts|;
    var midParts := [];
    if anchor < |parts| {
      midParts := TakeRun(parts, anchor, midBudget);
    }
    var head, middle := JoinParts(headParts), JoinParts(midParts);
    assert AreRuns(parts, if maxChars < 5 then 0 else maxChars - 5, headParts, midParts);
    if middle == "" {
      return head[..Min(|head|, maxChars)];
    }
    text := head + SEPARATOR + middle;
  }

  // ---------- the whole builder ----------

  /** The text of a kept block: all of it where it fits the budget, else truncated by parts in marker mode and by
      characters otherwise. */
  ghost predicate Fitted(ops: TextOps, b: Block, budget: nat, markers: bool, text: string) {
    if budget == 0 || |BlockText(ops, b)| <= budget then text == BlockText(ops, b)
    else
      && |text| <= budget
      && (if markers then b.parts != [] ==> HeadAndMiddle(b.parts, budget, text)
          else text == TruncateBlockText(BlockText(ops, b), budget))
  }

  /** The blocks that are kept of the grouping, numbered, with their times and their fitted texts. */
  ghost predicate Built(out: seq<TopicBlock>, ops: TextOps, segments: seq<Segment>, window: int, maxChars: int,
                        markers: bool)
  {
    var kept := Kept(ops, Group(ops, segments, window, markers));
    && |out| == |kept|
    && (forall i :: 0 <= i < |out| ==>
          && out[i].blockIndex == i
          && out[i].startMs == kept[i].startMs
          && out[i].endMs == Max(kept[i].endMs, kept[i].startMs)
          && Fitted(ops, kept[i], Max(maxChars, 0), markers, out[i].text))
  }

  method BuildTopicBlocks(ops: TextOps, segments: seq<Segment>, totalMs: int, targetCount: int, minSeconds: int,
                          maxSeconds: int, maxChars: int, markers: bool)
    returns (out: seq<TopicBlock>)
    ensures Built(out, ops, segments, BlockWindow(totalMs, targetCount, minSeconds, maxSeconds), maxChars, markers)
    ensures out == [] <==> segments == []
    ensures forall i, j :: 0 <= i < j < |out| ==>
              out[i].startMs + BlockWindow(totalMs, targetCount, minSeconds, maxSeconds) <= out[j].startMs
  {
    out := [];
    if |segments| == 0 {
      return;
    }
    var window := BlockWindow(totalMs, targetCount, minSeconds, maxSeconds);
    BlockWindowBounds(totalMs, targetCount, minSeconds, maxSeconds);
    var blocks := GroupSegments(ops, segments, window, markers);
    GroupSpaced(ops, segments, window, markers);
    NonemptySpaced(ops, blocks, window);
    var kept := KeepBlocks(ops, blocks);
    var budget := Max(maxChars, 0);
    for i := 0 to |kept|
      invariant |out| == i
      invariant forall k :: 0 <= k < i ==>
                  && out[k].blockIndex == k && out[k].startMs == kept[k].startMs
                  && out[k].endMs == Max(kept[k].endMs, kept[k].startMs)
                  && Fitted(ops, kept[k], budget, markers, out[k].text)
    {
      var b := kept[i];
      var text;
      if markers {
        text := TruncateBlockParts(ops, b.parts, budget);
      } else {
        text := TruncateBlockText(ops.trim(JoinParts(b.parts)), budget);
        TruncateFits(ops.trim(JoinParts(b.parts)), budget);
      }
      out := out + [TopicBlock(i, b.startMs, Max(b.endMs, b.startMs), text)];
    }
  }

  method KeepBlocks(ops: TextOps, blocks: seq<Block>) returns (kept: seq<Block>)
    ensures kept == Kept(ops, blocks)
    ensures kept == [] <==> blocks == []
  {
    kept := [];
    for i := 0 to |blocks|
      invariant kept == Nonempty(ops, blocks[..i])
    {
      assert blocks[..i + 1][..i] == blocks[..i];
      var text := ops.trim(JoinParts(blocks[i].parts));
      if |text| > 0 {
        kept := kept + [blocks[i]];
      }
    }
    assert blocks[..|blocks|] == blocks;
    if |kept| == 0 && |blocks| > 0 {
      kept := [blocks[0]];
    }
  }
}
