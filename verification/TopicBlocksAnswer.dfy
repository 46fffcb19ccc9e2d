/** The topic blocks of an episode, stated on its segments: where they are cut, when they start and end, what they
    say, and how their text is fitted. */
module TopicBlocksAnswer {
  import opened Basics
  import opened TopicBlocks

  // ---------- where the transcript is cut ----------

  /** A block takes the segments from position `start` up to `stop`: those that start less than a window after its
      first one, and no more. */
  ghost predicate IsCut(segments: seq<Segment>, start: nat, stop: nat, window: int) {
    && start < stop <= |segments|
    && (forall i :: start < i < stop ==> segments[i].startMs - segments[start].startMs < window)
    && (stop < |segments| ==> segments[stop].startMs - segments[start].startMs >= window)
  }

  /** The greatest end of the segments, where one that ends before it starts ends at its start. */
  ghost predicate IsLastEnd(end: int, segs: seq<Segment>) {
    && (exists i :: 0 <= i < |segs| && (end == segs[i].endMs || end == segs[i].startMs))
    && (forall i :: 0 <= i < |segs| ==> segs[i].endMs <= end && segs[i].startMs <= end)
  }

  /** What is said: the segments at the positions, which are those that are not blank, with their markers if wanted. */
  ghost predicate IsSaid(ops: TextOps, parts: seq<string>, segs: seq<Segment>, markers: bool, at: seq<nat>) {
    && |parts| == |at|
    && (forall k :: 0 <= k < |at| ==> at[k] < |segs| && IsPart(ops, parts[k], segs[at[k]], markers))
    && (forall k, m :: 0 <= k < m < |at| ==> at[k] < at[m])
    && (forall i :: 0 <= i < |segs| && ops.normalize(segs[i].text) != "" ==> i in at)
  }

  ghost predicate IsPart(ops: TextOps, part: string, seg: Segment, markers: bool) {
    var text := ops.normalize(seg.text);
    text != "" && part == if markers then "[s" + ops.marker(seg.seqNum) + "] " + text else text
  }

  ghost predicate IsBlockOf(ops: TextOps, b: Block, segs: seq<Segment>, markers: bool, at: seq<nat>) {
    && segs != [] && b.startMs == segs[0].startMs && IsLastEnd(b.endMs, segs)
    && IsSaid(ops, b.parts, segs, markers, at)
  }

  ghost predicate IsBlock(ops: TextOps, b: Block, segs: seq<Segment>, markers: bool) {
    exists at :: IsBlockOf(ops, b, segs, markers, at)
  }

  /** Block b, with the next cut at `stop`. */
  ghost predicate BlockAt(ops: TextOps, block: Block, segments: seq<Segment>, start: nat, stop: nat, window: int,
                          markers: bool)
  {
    IsCut(segments, start, stop, window) && IsBlock(ops, block, segments[start..stop], markers)
  }

  ghost predicate AreBlocks(ops: TextOps, blocks: seq<Block>, segments: seq<Segment>, cuts: seq<nat>, window: int,
                            markers: bool)
  {
    && |cuts| == |blocks| + 1 && cuts[0] == 0 && cuts[|blocks|] == |segments|
    && forall b {:trigger blocks[b]} :: 0 <= b < |blocks| ==>
         BlockAt(ops, blocks[b], segments, cuts[b], cuts[b + 1], window, markers)
  }

  lemma {:induction false} OneSaid(ops: TextOps, seg: Segment, markers: bool) returns (at: seq<nat>)
    ensures IsBlockOf(ops, Block(seg.startMs, SegmentEnd(seg), PartOf(ops, seg, markers)), [seg], markers, at)
  {
    at := if ops.normalize(seg.text) == "" then [] else [0];
    assert [seg][0] == seg;
  }

  /** One more segment in the block. */
  lemma {:induction false} MoreSaid(ops: TextOps, b: Block, segs: seq<Segment>, seg: Segment, markers: bool,
                                    at: seq<nat>)
    returns (more: seq<nat>)
    requires IsBlockOf(ops, b, segs, markers, at)
    ensures IsBlockOf(ops, Block(b.startMs, Max(b.endMs, SegmentEnd(seg)), b.parts + PartOf(ops, seg, markers)),
                      segs + [seg], markers, more)
  {
    more := if ops.normalize(seg.text) == "" then at else at + [|segs|];
    LaterEnd(b.endMs, segs, seg);
    SaidMore(ops, b.parts, segs, seg, markers, at);
  }

  lemma {:induction false} LaterEnd(end: int, segs: seq<Segment>, seg: Segment)
    requires IsLastEnd(end, segs)
    ensures IsLastEnd(Max(end, SegmentEnd(seg)), segs + [seg])
  {
    var all := segs + [seg];
    var i :| 0 <= i < |segs| && (end == segs[i].endMs || end == segs[i].startMs);
    assert all[i] == segs[i] && all[|segs|] == seg;
  }

  lemma {:induction false} SaidMore(ops: TextOps, parts: seq<string>, segs: seq<Segment>, seg: Segment, markers: bool,
                                    at: seq<nat>)
    requires IsSaid(ops, parts, segs, markers, at)
    ensures IsSaid(ops, parts + PartOf(ops, seg, markers), segs + [seg], markers,
                   if ops.normalize(seg.text) == "" then at else at + [|segs|])
  {
    hide IsPart;
    var all := segs + [seg];
    assert forall i :: 0 <= i < |segs| ==> all[i] == segs[i];
    if ops.normalize(seg.text) == "" {
      assert parts + PartOf(ops, seg, markers) == parts;
    } else {
      SaidLast(ops, parts, segs, seg, markers, at);
    }
  }

  lemma {:induction false} SaidLast(ops: TextOps, parts: seq<string>, segs: seq<Segment>, seg: Segment, markers: bool,
                                    at: seq<nat>)
    requires IsSaid(ops, parts, segs, markers, at) && ops.normalize(seg.text) != ""
    ensures IsSaid(ops, parts + PartOf(ops, seg, markers), segs + [seg], markers, at + [|segs|])
  {
    var all, more, said := segs + [seg], at + [|segs|], parts + PartOf(ops, seg, markers);
    assert PartOf(ops, seg, markers) == [said[|parts|]] && IsPart(ops, said[|parts|], seg, markers);
    hide IsPart, PartOf;
    forall k | 0 <= k < |more|
      ensures more[k] < |all| && IsPart(ops, said[k], all[more[k]], markers)
    {
      if k < |at| {
        assert more[k] == at[k] && said[k] == parts[k] && all[at[k]] == segs[at[k]];
      }
    }
    forall i | 0 <= i < |all| && ops.normalize(all[i].text) != ""
      ensures i in more
    {
      if i < |segs| {
        assert all[i] == segs[i];
        assert i in at;
      }
    }
  }

  /** The grouping cuts the transcript so. */
  lemma {:induction false} GroupIsCut(ops: TextOps, segments: seq<Segment>, window: int, markers: bool)
    returns (cuts: seq<nat>)
    ensures AreBlocks(ops, Group(ops, segments, window, markers), segments, cuts, window, markers)
  {
    if segments == [] {
      cuts := [0];
    } else {
      var n := |segments| - 1;
      var init, seg := segments[..n], segments[n];
      var before := Group(ops, init, window, markers);
      var earlier := GroupIsCut(ops, init, window, markers);
      var part := PartOf(ops, seg, markers);
      assert Group(ops, segments, window, markers) == Place(before, seg, part, window);
      hide AreBlocks, PartOf, SegmentEnd, Group;
      if before == [] || seg.startMs - before[|before| - 1].startMs >= window {
        cuts := earlier + [n + 1];
        assert Place(before, seg, part, window) == before + [Block(seg.startMs, SegmentEnd(seg), part)];
        CutOpens(ops, segments, before, earlier, window, markers);
      } else {
        HasCuts(ops, before, init, earlier, window, markers);
        cuts := earlier[|earlier| - 1 := n + 1];
        CutGrows(ops, segments, before, earlier, window, markers);
      }
    }
  }

  /** An earlier block stays, also when the segment that ends it is the new one. */
  lemma {:induction false} BlockStays(ops: TextOps, block: Block, segments: seq<Segment>, start: nat, stop: nat,
                                      window: int, markers: bool)
    requires segments != [] && BlockAt(ops, block, segments[..|segments| - 1], start, stop, window, markers)
    requires stop == |segments| - 1 ==> segments[stop].startMs - block.startMs >= window
    ensures BlockAt(ops, block, segments, start, stop, window, markers)
  {
    hide IsBlock;
    var init := segments[..|segments| - 1];
    assert init[start..stop] == segments[start..stop];
    BlockStarts(ops, block, init[start..stop], markers);
    assert init[start..stop][0] == segments[start];
  }

  lemma {:induction false} BlockStarts(ops: TextOps, block: Block, segs: seq<Segment>, markers: bool)
    requires IsBlock(ops, block, segs, markers)
    ensures segs != [] && block.startMs == segs[0].startMs
  {
    hide IsLastEnd, IsSaid;
    var at :| IsBlockOf(ops, block, segs, markers, at);
  }

  /** A block of the new segment alone. */
  lemma {:induction false} BlockOpens(ops: TextOps, segments: seq<Segment>, window: int, markers: bool)
    requires segments != []
    ensures var n, seg := |segments| - 1, segments[|segments| - 1];
            BlockAt(ops, Block(seg.startMs, SegmentEnd(seg), PartOf(ops, seg, markers)), segments, n, n + 1, window,
                    markers)
  {
    var n := |segments| - 1;
    assert segments[n..n + 1] == [segments[n]];
    var at := OneSaid(ops, segments[n], markers);
  }

  /** The last block with the new segment in it. */
  lemma {:induction false} BlockGrows(ops: TextOps, block: Block, segments: seq<Segment>, start: nat, window: int,
                                      markers: bool)
    requires segments != []
    requires BlockAt(ops, block, segments[..|segments| - 1], start, |segments| - 1, window, markers)
    requires segments[|segments| - 1].startMs - block.startMs < window
    ensures var seg := segments[|segments| - 1];
            var end, parts := Max(block.endMs, SegmentEnd(seg)), block.parts + PartOf(ops, seg, markers);
            BlockAt(ops, Block(block.startMs, end, parts), segments, start, |segments|, window, markers)
  {
    hide IsLastEnd, IsSaid;
    var n := |segments| - 1;
    var own := segments[..n][start..n];
    var at :| IsBlockOf(ops, block, own, markers, at);
    assert own + [segments[n]] == segments[start..];
    assert segments[start..] == segments[start..n + 1];
    assert own[0] == segments[start];
    var more := MoreSaid(ops, block, own, segments[n], markers, at);
  }

  lemma {:induction false} HasCuts(ops: TextOps, blocks: seq<Block>, segments: seq<Segment>, cuts: seq<nat>,
                                   window: int, markers: bool)
    requires AreBlocks(ops, blocks, segments, cuts, window, markers)
    ensures |cuts| == |blocks| + 1
  {
  }

  /** The segment opens a block. */
  lemma {:induction false} CutOpens(ops: TextOps, segments: seq<Segment>, before: seq<Block>, earlier: seq<nat>,
                                    window: int, markers: bool)
    requires segments != [] && AreBlocks(ops, before, segments[..|segments| - 1], earlier, window, markers)
    requires before == [] || segments[|segments| - 1].startMs - before[|before| - 1].startMs >= window
    ensures var seg := segments[|segments| - 1];
            AreBlocks(ops, before + [Block(seg.startMs, SegmentEnd(seg), PartOf(ops, seg, markers))], segments,
                      earlier + [|segments|], window, markers)
  {
    hide BlockAt, PartOf, SegmentEnd;
    var n, cuts := |segments| - 1, earlier + [|segments|];
    var seg := segments[n];
    var blocks := before + [Block(seg.startMs, SegmentEnd(seg), PartOf(ops, seg, markers))];
    BlockOpens(ops, segments, window, markers);
    forall b: nat | b < |before|
      ensures BlockAt(ops, blocks[b], segments, cuts[b], cuts[b + 1], window, markers)
    {
      assert blocks[b] == before[b] && cuts[b] == earlier[b] && cuts[b + 1] == earlier[b + 1];
      CutsRise(ops, before, segments[..n], earlier, window, markers, b);
      BlockStays(ops, before[b], segments, earlier[b], earlier[b + 1], window, markers);
    }
    assert cuts[|before|] == n && cuts[|before| + 1] == n + 1;
  }

  /** Only the last block ends where the transcript does. */
  lemma {:induction false} CutsRise(ops: TextOps, blocks: seq<Block>, segments: seq<Segment>, cuts: seq<nat>,
                                    window: int, markers: bool, b: nat)
    requires AreBlocks(ops, blocks, segments, cuts, window, markers) && b < |blocks|
    ensures b < |blocks| - 1 ==> cuts[b + 1] < |segments|
    decreases |blocks| - b
  {
    if b < |blocks| - 1 {
      var next := blocks[b + 1];
      assert BlockAt(ops, next, segments, cuts[b + 1], cuts[b + 1 + 1], window, markers);
    }
  }

  /** The segment goes into the last block. */
  lemma {:induction false} CutGrows(ops: TextOps, segments: seq<Segment>, before: seq<Block>, earlier: seq<nat>,
                                    window: int, markers: bool)
    requires segments != [] && AreBlocks(ops, before, segments[..|segments| - 1], earlier, window, markers)
    requires before != [] && segments[|segments| - 1].startMs - before[|before| - 1].startMs < window
    ensures var seg, last := segments[|segments| - 1], before[|before| - 1];
            AreBlocks(ops, before[|before| - 1 := Block(last.startMs, Max(last.endMs, SegmentEnd(seg)),
                                                        last.parts + PartOf(ops, seg, markers))],
                      segments, earlier[|earlier| - 1 := |segments|], window, markers)
  {
    hide BlockAt, PartOf, SegmentEnd;
    var n, m := |segments| - 1, |before| - 1;
    var seg, cuts, last := segments[n], earlier[|earlier| - 1 := n + 1], before[m];
    var grown := Block(last.startMs, Max(last.endMs, SegmentEnd(seg)), last.parts + PartOf(ops, seg, markers));
    var blocks := before[m := grown];
    assert BlockAt(ops, before[m], segments[..n], earlier[m], earlier[m + 1], window, markers);
    BlockGrows(ops, last, segments, earlier[m], window, markers);
    forall b: nat | b < m
      ensures BlockAt(ops, blocks[b], segments, cuts[b], cuts[b + 1], window, markers)
    {
      assert blocks[b] == before[b] && cuts[b] == earlier[b] && cuts[b + 1] == earlier[b + 1];
      CutsRise(ops, before, segments[..n], earlier, window, markers, b);
      BlockStays(ops, before[b], segments, earlier[b], earlier[b + 1], window, markers);
    }
    assert cuts[m] == earlier[m] && cuts[m + 1] == n + 1;
  }

  // ---------- which blocks are kept ----------

  ghost predicate HasText(ops: TextOps, b: Block) {
    ops.trim(JoinParts(b.parts)) != ""
  }

  /** The kept blocks are those at the positions: all with text, or the first alone when none has any. */
  ghost predicate KeptAt(ops: TextOps, kept: seq<Block>, blocks: seq<Block>, at: seq<nat>) {
    && |kept| == |at|
    && (forall k :: 0 <= k < |at| ==> at[k] < |blocks| && kept[k] == blocks[at[k]])
    && (forall k, m :: 0 <= k < m < |at| ==> at[k] < at[m])
    && (if exists i :: 0 <= i < |blocks| && HasText(ops, blocks[i])
        then forall i :: 0 <= i < |blocks| ==> (i in at <==> HasText(ops, blocks[i]))
        else at == if blocks == [] then [] else [0])
  }

  lemma {:induction false} NonemptyAt(ops: TextOps, blocks: seq<Block>) returns (at: seq<nat>)
    ensures var some := Nonempty(ops, blocks);
            && |some| == |at|
            && (forall k :: 0 <= k < |at| ==> at[k] < |blocks| && some[k] == blocks[at[k]])
            && (forall k, m :: 0 <= k < m < |at| ==> at[k] < at[m])
            && (forall i :: 0 <= i < |blocks| ==> (i in at <==> HasText(ops, blocks[i])))
  {
    if blocks == [] {
      at := [];
    } else {
      var n := |blocks| - 1;
      at := NonemptyAt(ops, blocks[..n]);
      assert forall i :: 0 <= i < n ==> blocks[..n][i] == blocks[i];
      assert forall i :: i in at ==> i < n;
      if HasText(ops, blocks[n]) {
        at := at + [n];
      }
    }
  }

  lemma {:induction false} KeptExactly(ops: TextOps, blocks: seq<Block>) returns (at: seq<nat>)
    ensures KeptAt(ops, Kept(ops, blocks), blocks, at)
  {
    hide HasText, Nonempty;
    at := NonemptyAt(ops, blocks);
    if at == [] {
      assert forall i :: 0 <= i < |blocks| ==> !(i in at);
      at := if blocks == [] then [] else [0];
    } else {
      assert HasText(ops, blocks[at[0]]) by {
        assert at[0] in at;
      }
    }
  }

  // ---------- what becomes of the text ----------

  /** The text cut to the budget: too small a budget keeps the opening alone. Else the separator's five characters are
      set aside, half of the rest is for the opening, and the other half for a stretch that starts half of its length
      before the middle of the text, or as near to that as the opening and the end of the text let it. */
  ghost predicate IsCutText(cut: string, text: string, budget: nat) {
    if budget <= 9 then budget <= |text| && cut == text[..budget]
    else
      var head := (budget - 5) / 2;
      var length := budget - 5 - head;
      var from := Max(head, Min(|text| - length, Max(0, |text| / 2 - length / 2)));
      from + length <= |text| && cut == text[..head] + " ... " + text[from..from + length]
  }

  lemma {:induction false} CutTextIs(text: string, budget: nat)
    requires 0 < budget < |text|
    ensures IsCutText(TruncateBlockText(text, budget), text, budget)
  {
    hide KeptChars;
    if budget > 9 {
      KeptIs(|text|, budget);
    }
  }

  lemma {:induction false} KeptIs(total: nat, budget: nat)
    requires 9 < budget < total
    ensures var kept, head := KeptChars(total, budget), (budget - 5) / 2;
            var length := budget - 5 - head;
            && kept.0 == head && kept.2 == kept.1 + length
            && kept.1 == Max(head, Min(total - length, Max(0, total / 2 - length / 2)))
  {
  }

  /** The text of a block, within the budget if there is one. */
  ghost predicate IsFitted(ops: TextOps, text: string, b: Block, maxChars: int, markers: bool) {
    var whole := ops.trim(JoinParts(b.parts));
    if maxChars <= 0 || |whole| <= maxChars then text == whole
    else if markers then |text| <= maxChars && (b.parts != [] ==> HeadAndMiddle(b.parts, maxChars, text))
    else IsCutText(text, whole, maxChars)
  }

  // ---------- the whole answer ----------

  /** The transcript is cut into blocks, those to be kept are numbered from zero on, and each has its times and text. */
  ghost predicate AreTopicBlocks(out: seq<TopicBlock>, ops: TextOps, segments: seq<Segment>, window: int, maxChars: int,
                                 markers: bool, blocks: seq<Block>, cuts: seq<nat>, kept: seq<Block>, at: seq<nat>)
  {
    && AreBlocks(ops, blocks, segments, cuts, window, markers)
    && KeptAt(ops, kept, blocks, at) && |out| == |kept|
    && forall k :: 0 <= k < |out| ==>
         && out[k].blockIndex == k && out[k].startMs == kept[k].startMs && out[k].endMs == kept[k].endMs
         && IsFitted(ops, out[k].text, kept[k], maxChars, markers)
  }

  /** What the builder answers. */
  lemma {:induction false} BuiltIs(out: seq<TopicBlock>, ops: TextOps, segments: seq<Segment>, window: int,
                                   maxChars: int, markers: bool)
    returns (blocks: seq<Block>, cuts: seq<nat>, kept: seq<Block>, at: seq<nat>)
    requires Built(out, ops, segments, window, maxChars, markers)
    ensures AreTopicBlocks(out, ops, segments, window, maxChars, markers, blocks, cuts, kept, at)
  {
    hide AreBlocks, Group, HeadAndMiddle, IsCutText, TruncateBlockText;
    blocks := Group(ops, segments, window, markers);
    cuts := GroupIsCut(ops, segments, window, markers);
    kept := Kept(ops, blocks);
    at := KeptExactly(ops, blocks);
    forall k: nat | k < |out|
      ensures out[k].endMs == kept[k].endMs
      ensures IsFitted(ops, out[k].text, kept[k], maxChars, markers)
    {
      EndsAfterStart(ops, blocks, segments, cuts, window, markers, at[k]);
      var whole := ops.trim(JoinParts(kept[k].parts));
      if 0 < maxChars < |whole| {
        CutTextIs(whole, maxChars);
      }
    }
  }

  lemma {:induction false} EndsAfterStart(ops: TextOps, blocks: seq<Block>, segments: seq<Segment>, cuts: seq<nat>,
                                          window: int, markers: bool, b: nat)
    requires AreBlocks(ops, blocks, segments, cuts, window, markers) && b < |blocks|
    ensures blocks[b].startMs <= blocks[b].endMs
  {
    hide IsSaid;
    var block := blocks[b];
    assert BlockAt(ops, block, segments, cuts[b], cuts[b + 1], window, markers);
    var own := segments[cuts[b]..cuts[b + 1]];
    var at :| IsBlockOf(ops, block, own, markers, at);
  }
}
