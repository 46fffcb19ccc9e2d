/** Turning a topic plan, a list of block indices with titles, into the chapters of an episode.
    Times are milliseconds. */
module TopicPlan {
  import opened Basics
  import opened Sorting
  import TopicBlocks

  /** A lone chapter is refused for an episode this long. */
  const LONG_EPISODE_MS := 20 * 60 * 1000

  datatype PlanBlock = PlanBlock(blockIndex: int, startMs: int, text: string)

  datatype Entry = Entry(blockIndex: int, title: string)

  datatype Chapter = Chapter(title: string, startMs: int, endMs: int)

  /** Title handling that depends on Unicode character classes. */
  datatype TitleOps = TitleOps(fromText: (string, int) -> string, trim: string -> string)

  type BlockMap = map<int, PlanBlock>

  predicate ByIndex(a: Entry, b: Entry) { a.blockIndex <= b.blockIndex }

  function MapBlocks(blocks: seq<PlanBlock>): BlockMap {
    if blocks == [] then map[]
    else MapBlocks(blocks[..|blocks| - 1])[blocks[|blocks| - 1].blockIndex := blocks[|blocks| - 1]]
  }

  // ---------- normalizing the plan ----------

  function Indices(entries: seq<Entry>): set<int> {
    if entries == [] then {} else Indices(entries[..|entries| - 1]) + {entries[|entries| - 1].blockIndex}
  }

  /** Entries that name a block, the first one for each block. */
  function Dedup(entries: seq<Entry>, blocks: BlockMap): seq<Entry> {
    if entries == [] then []
    else
      var before, e := Dedup(entries[..|entries| - 1], blocks), entries[|entries| - 1];
      if e.blockIndex !in blocks || e.blockIndex in Indices(before) then before else before + [e]
  }

  function Normalize(ops: TitleOps, plan: seq<Entry>, blocks: BlockMap): seq<Entry> {
    var deduped := Dedup(Sort(ByIndex, plan), blocks);
    if deduped != [] && deduped[0].blockIndex != 0 && 0 in blocks
    then [Entry(0, ops.fromText(blocks[0].text, 1))] + deduped
    else deduped
  }

  method NormalizeTopicPlanEntries(ops: TitleOps, plan: seq<Entry>, blocks: BlockMap) returns (normalized: seq<Entry>)
    ensures normalized == Normalize(ops, plan, blocks)
  {
    var sorted := Sort(ByIndex, plan);
    normalized := [];
    var seen := {};
    for i := 0 to |sorted|
      invariant normalized == Dedup(sorted[..i], blocks) && seen == Indices(normalized)
    {
      assert sorted[..i + 1][..i] == sorted[..i];
      var entry := sorted[i];
      if entry.blockIndex !in blocks {
        continue;
      }
      if entry.blockIndex in seen {
        continue;
      }
      seen := seen + {entry.blockIndex};
      assert (normalized + [entry])[..|normalized|] == normalized;
      normalized := normalized + [entry];
    }
    assert sorted[..|sorted|] == sorted;
    if |normalized| == 0 {
      return;
    }
    if normalized[0].blockIndex != 0 {
      if 0 in blocks {
        normalized := [Entry(0, ops.fromText(blocks[0].text, 1))] + normalized;
      }
    }
  }

  // ---------- dropping chapters too close to the one before ----------

  function Filter(entries: seq<Entry>, blocks: BlockMap, minGap: int, lastIndex: int): seq<Entry> {
    if entries == [] then []
    else
      var before, e := Filter(entries[..|entries| - 1], blocks, minGap, lastIndex), entries[|entries| - 1];
      if Passes(before, e, blocks, minGap, lastIndex) then before + [e] else before
  }

  /** The entry's block starts far enough after the last chapter kept, or the entry is the last one. */
  predicate Passes(kept: seq<Entry>, e: Entry, blocks: BlockMap, minGap: int, lastIndex: int) {
    && e.blockIndex in blocks
    && (kept == [] || kept[|kept| - 1].blockIndex !in blocks
        || blocks[e.blockIndex].startMs - blocks[kept[|kept| - 1].blockIndex].startMs >= minGap
        || e.blockIndex == lastIndex)
  }

  function FilterPlan(normalized: seq<Entry>, blocks: BlockMap, minGap: int): seq<Entry> {
    if normalized == [] then [] else Filter(normalized, blocks, minGap, normalized[|normalized| - 1].blockIndex)
  }

  method FilterTopicPlanEntries(normalized: seq<Entry>, blocks: BlockMap, minGap: int) returns (filtered: seq<Entry>)
    ensures filtered == FilterPlan(normalized, blocks, minGap)
  {
    filtered := [];
    if |normalized| == 0 {
      return;
    }
    var lastIndex := normalized[|normalized| - 1].blockIndex;
    var lastStart := 0;
    for i := 0 to |normalized|
      invariant filtered == Filter(normalized[..i], blocks, minGap, lastIndex)
      invariant filtered != [] ==> filtered[|filtered| - 1].blockIndex in blocks
                                   && lastStart == blocks[filtered[|filtered| - 1].blockIndex].startMs
    {
      assert normalized[..i + 1][..i] == normalized[..i];
      var entry := normalized[i];
      if entry.blockIndex !in blocks {
        continue;
      }
      var start := blocks[entry.blockIndex].startMs;
      if |filtered| > 0 {
        var gap := start - lastStart;
        if gap < minGap && entry.blockIndex != lastIndex {
          continue;
        }
      }
      filtered := filtered + [entry];
      lastStart := start;
    }
    assert normalized[..|normalized|] == normalized;
  }

  // ---------- chapters ----------

  predicate AllMapped(entries: seq<Entry>, blocks: BlockMap) {
    forall i :: 0 <= i < |entries| ==> entries[i].blockIndex in blocks
  }

  function StartOf(entries: seq<Entry>, blocks: BlockMap, i: nat): int
    requires AllMapped(entries, blocks) && i < |entries|
  {
    blocks[entries[i].blockIndex].startMs
  }

  /** The i-th chapter runs to the start of the next one, the last to the end of the episode. */
  function ChapterAt(ops: TitleOps, entries: seq<Entry>, blocks: BlockMap, totalMs: int, i: nat): Chapter
    requires AllMapped(entries, blocks) && i < |entries|
  {
    var start := StartOf(entries, blocks, i);
    var next := if i + 1 < |entries| then StartOf(entries, blocks, i + 1) else totalMs;
    var trimmed := ops.trim(entries[i].title);
    var title := if trimmed != "" then trimmed else ops.fromText(blocks[entries[i].blockIndex].text, i + 1);
    Chapter(title, Max(start, 0), Max(start, next))
  }

  method BuildChapters(ops: TitleOps, filtered: seq<Entry>, blocks: BlockMap, totalMs: int)
    returns (chapters: seq<Chapter>)
    requires AllMapped(filtered, blocks)
    ensures |chapters| == |filtered|
    ensures forall i :: 0 <= i < |chapters| ==> chapters[i] == ChapterAt(ops, filtered, blocks, totalMs, i)
  {
    chapters := [];
    for i := 0 to |filtered|
      invariant |chapters| == i
      invariant forall k :: 0 <= k < i ==> chapters[k] == ChapterAt(ops, filtered, blocks, totalMs, k)
    {
      var block := blocks[filtered[i].blockIndex];
      var nextStart := if i + 1 < |filtered| then blocks[filtered[i + 1].blockIndex].startMs else totalMs;
      var trimmed := ops.trim(filtered[i].title);
      var title := if |trimmed| > 0 then trimmed else ops.fromText(block.text, i + 1);
      chapters := chapters + [Chapter(title, Max(block.startMs, 0), Max(block.startMs, nextStart))];
    }
  }

  lemma {:induction false} FilterMapped(entries: seq<Entry>, blocks: BlockMap, minGap: int, lastIndex: int)
    ensures AllMapped(Filter(entries, blocks, minGap, lastIndex), blocks)
  {
    if entries != [] {
      FilterMapped(entries[..|entries| - 1], blocks, minGap, lastIndex);
    }
  }

  /** The entries that become chapters. */
  function Planned(ops: TitleOps, plan: seq<Entry>, blocks: seq<PlanBlock>, minGap: int): seq<Entry> {
    FilterPlan(Normalize(ops, plan, MapBlocks(blocks)), MapBlocks(blocks), minGap)
  }

  method ChaptersFromTopicPlan(ops: TitleOps, plan: seq<Entry>, blocks: seq<PlanBlock>, totalMs: int, minGap: int)
    returns (chapters: seq<Chapter>)
    ensures AllMapped(Planned(ops, plan, blocks, minGap), MapBlocks(blocks))
    ensures var planned := Planned(ops, plan, blocks, minGap);
            if |planned| == 1 && totalMs >= 1_200_000 then chapters == []
            else |chapters| == |planned|
                 && forall i :: 0 <= i < |chapters| ==>
                      chapters[i] == ChapterAt(ops, planned, MapBlocks(blocks), totalMs, i)
  {
    chapters := [];
    var blockMap := map[];
    for i := 0 to |blocks|
      invariant blockMap == MapBlocks(blocks[..i])
    {
      assert blocks[..i + 1][..i] == blocks[..i];
      blockMap := blockMap[blocks[i].blockIndex := blocks[i]];
    }
    assert blocks[..|blocks|] == blocks;
    PlannedMapped(ops, plan, blocks, minGap);
    NothingPlanned(ops, plan, blocks, minGap);
    if |plan| == 0 || |blocks| == 0 {
      return;
    }
    var normalized := NormalizeTopicPlanEntries(ops, plan, blockMap);
    if |normalized| == 0 {
      return;
    }
    var filtered := FilterTopicPlanEntries(normalized, blockMap, minGap);
    if |filtered| == 0 {
      return;
    }
    if |filtered| == 1 && totalMs >= LONG_EPISODE_MS {
      return;
    }
    chapters := BuildChapters(ops, filtered, blockMap, totalMs);
  }

  lemma {:induction false} PlannedMapped(ops: TitleOps, plan: seq<Entry>, blocks: seq<PlanBlock>, minGap: int)
    ensures AllMapped(Planned(ops, plan, blocks, minGap), MapBlocks(blocks))
  {
    var blockMap := MapBlocks(blocks);
    var normalized := Normalize(ops, plan, blockMap);
    if normalized != [] {
      FilterMapped(normalized, blockMap, minGap, normalized[|normalized| - 1].blockIndex);
    }
  }

  lemma {:induction false} DedupWithoutBlocks(entries: seq<Entry>)
    ensures Dedup(entries, map[]) == []
  {
    if entries != [] {
      DedupWithoutBlocks(entries[..|entries| - 1]);
    }
  }

  lemma {:induction false} NothingPlanned(ops: TitleOps, plan: seq<Entry>, blocks: seq<PlanBlock>, minGap: int)
    ensures plan == [] || blocks == [] ==> Planned(ops, plan, blocks, minGap) == []
  {
    if blocks == [] {
      DedupWithoutBlocks(Sort(ByIndex, plan));
    }
  }

  // ---------- blocks as the block builder leaves them ----------

  /** Numbered from zero, starting at or after zero, and `window` or more apart. */
  ghost predicate WellBuilt(blocks: seq<PlanBlock>, window: int) {
    && (forall i :: 0 <= i < |blocks| ==> blocks[i].blockIndex == i && 0 <= blocks[i].startMs)
    && (forall i, j :: 0 <= i < j < |blocks| ==> blocks[i].startMs + window <= blocks[j].startMs)
  }

  lemma {:induction false} MapOfWellBuilt(blocks: seq<PlanBlock>, window: int, k: int)
    requires WellBuilt(blocks, window)
    ensures k in MapBlocks(blocks) <==> 0 <= k < |blocks|
    ensures k in MapBlocks(blocks) ==> MapBlocks(blocks)[k] == blocks[k]
  {
    if blocks != [] {
      MapOfWellBuilt(blocks[..|blocks| - 1], window, k);
    }
  }

  // ---------- the shape of the plan ----------

  ghost predicate IndicesIncrease(entries: seq<Entry>) {
    forall i, j :: 0 <= i < j < |entries| ==> entries[i].blockIndex < entries[j].blockIndex
  }

  lemma {:induction false} InIndices(entries: seq<Entry>, k: int)
    ensures k in Indices(entries) <==> exists i :: 0 <= i < |entries| && entries[i].blockIndex == k
  {
    if entries != [] {
      var init, last := entries[..|entries| - 1], entries[|entries| - 1];
      InIndices(init, k);
      if k in Indices(init) {
        var i :| 0 <= i < |init| && init[i].blockIndex == k;
        assert entries[i].blockIndex == k;
      }
    }
  }

  /** What deduplication of a sorted list keeps: each named block once, in order. */
  lemma {:induction false} DedupIncreases(entries: seq<Entry>, blocks: BlockMap)
    requires Ordered(ByIndex, entries)
    ensures IndicesIncrease(Dedup(entries, blocks)) && AllMapped(Dedup(entries, blocks), blocks)
    ensures entries != [] ==> forall i :: 0 <= i < |Dedup(entries, blocks)| ==>
              Dedup(entries, blocks)[i].blockIndex <= entries[|entries| - 1].blockIndex
  {
    if entries != [] {
      var init, last := entries[..|entries| - 1], entries[|entries| - 1];
      var before := Dedup(init, blocks);
      DedupIncreases(init, blocks);
      if init != [] {
        assert ByIndex(entries[|entries| - 2], entries[|entries| - 1]);
      }
      assert forall i :: 0 <= i < |before| ==> before[i].blockIndex <= last.blockIndex;
      InIndices(before, last.blockIndex);
    }
  }

  lemma {:induction false} DedupKeepsBlocks(entries: seq<Entry>, blocks: BlockMap, k: int)
    ensures k in Indices(Dedup(entries, blocks)) <==> k in Indices(entries) && k in blocks
  {
    if entries != [] {
      var init, last := entries[..|entries| - 1], entries[|entries| - 1];
      DedupKeepsBlocks(init, blocks, k);
      var before := Dedup(init, blocks);
      assert (before + [last])[..|before|] == before;
    }
  }

  lemma {:induction false} ByIndexIsPreorder()
    ensures TotalPreorder(ByIndex)
  {
  }

  /** The normalized plan names every block of the plan once, in order, and starts with block zero
      whenever there is one. */
  lemma {:induction false} NormalizedShape(ops: TitleOps, plan: seq<Entry>, blocks: BlockMap)
    requires forall k :: k in blocks ==> 0 <= k
    ensures var normalized := Normalize(ops, plan, blocks);
            && IndicesIncrease(normalized) && AllMapped(normalized, blocks)
            && (normalized != [] && 0 in blocks ==> normalized[0].blockIndex == 0)
  {
    ByIndexIsPreorder();
    SortOrders(ByIndex, plan);
    DedupIncreases(Sort(ByIndex, plan), blocks);
  }

  /** A list and its sorted form name the same indices. */
  lemma {:induction false} SortedIndices(plan: seq<Entry>, k: int)
    ensures k in Indices(Sort(ByIndex, plan)) <==> k in Indices(plan)
  {
    var sorted := Sort(ByIndex, plan);
    SortKeepsElements(ByIndex, plan);
    InIndices(sorted, k);
    InIndices(plan, k);
    assert forall e :: e in sorted <==> e in plan;
    assert k in Indices(plan) <==> exists e :: e in plan && e.blockIndex == k;
    assert k in Indices(sorted) <==> exists e :: e in sorted && e.blockIndex == k;
  }

  lemma {:induction false} EmptyIndices(entries: seq<Entry>)
    ensures entries == [] <==> Indices(entries) == {}
  {
  }

  /** The plan leads to chapters exactly when it names some block. */
  lemma {:induction false} NormalizedEmpty(ops: TitleOps, plan: seq<Entry>, blocks: BlockMap)
    ensures Normalize(ops, plan, blocks) == [] <==> forall i :: 0 <= i < |plan| ==> plan[i].blockIndex !in blocks
  {
    var deduped := Dedup(Sort(ByIndex, plan), blocks);
    EmptyIndices(deduped);
    forall k
      ensures k in Indices(deduped) <==> k in blocks && exists i :: 0 <= i < |plan| && plan[i].blockIndex == k
    {
      DedupKeepsBlocks(Sort(ByIndex, plan), blocks, k);
      SortedIndices(plan, k);
      InIndices(plan, k);
    }
  }

  /** The title of the first entry that names block k. */
  function FirstTitle(entries: seq<Entry>, k: int): Option<string> {
    if entries == [] then None
    else
      var before, last := FirstTitle(entries[..|entries| - 1], k), entries[|entries| - 1];
      if before.Some? then before else if last.blockIndex == k then Some(last.title) else None
  }

  lemma {:induction false} FirstTitleSnoc(entries: seq<Entry>, e: Entry, k: int)
    ensures FirstTitle(entries + [e], k)
         == if FirstTitle(entries, k).Some? then FirstTitle(entries, k)
            else if e.blockIndex == k then Some(e.title) else None
  {
    assert (entries + [e])[..|entries|] == entries;
  }

  lemma {:induction false} FirstTitleCons(e: Entry, entries: seq<Entry>, k: int)
    ensures FirstTitle([e] + entries, k) == if e.blockIndex == k then Some(e.title) else FirstTitle(entries, k)
  {
    if entries != [] {
      var init, last := entries[..|entries| - 1], entries[|entries| - 1];
      FirstTitleCons(e, init, k);
      FirstTitleSnoc([e] + init, last, k);
      assert [e] + entries == [e] + init + [last];
    } else {
      assert [e] + entries == [e];
    }
  }

  /** Sorting is stable: it does not change which title comes first for a block. */
  lemma {:induction false} InsertKeepsFirst(entries: seq<Entry>, e: Entry, k: int)
    ensures FirstTitle(Insert(ByIndex, entries, e), k) == FirstTitle(entries + [e], k)
  {
    FirstTitleSnoc(entries, e, k);
    if entries != [] && !ByIndex(entries[|entries| - 1], e) {
      var init, last := entries[..|entries| - 1], entries[|entries| - 1];
      InsertKeepsFirst(init, e, k);
      FirstTitleSnoc(init, e, k);
      FirstTitleSnoc(Insert(ByIndex, init, e), last, k);
    }
  }

  lemma {:induction false} SortKeepsFirst(plan: seq<Entry>, k: int)
    ensures FirstTitle(Sort(ByIndex, plan), k) == FirstTitle(plan, k)
  {
    if plan != [] {
      var init, last := plan[..|plan| - 1], plan[|plan| - 1];
      SortKeepsFirst(init, k);
      InsertKeepsFirst(Sort(ByIndex, init), last, k);
      FirstTitleSnoc(Sort(ByIndex, init), last, k);
    }
  }

  lemma {:induction false} TitledWhenNamed(entries: seq<Entry>, k: int)
    ensures FirstTitle(entries, k).Some? <==> k in Indices(entries)
  {
    if entries != [] {
      TitledWhenNamed(entries[..|entries| - 1], k);
    }
  }

  lemma {:induction false} DedupKeepsFirst(entries: seq<Entry>, blocks: BlockMap, k: int)
    ensures FirstTitle(Dedup(entries, blocks), k) == if k in blocks then FirstTitle(entries, k) else None
  {
    if entries != [] {
      hide FirstTitle, Indices;
      var init, last := entries[..|entries| - 1], entries[|entries| - 1];
      var before := Dedup(init, blocks);
      DedupKeepsFirst(init, blocks, k);
      TitledWhenNamed(before, k);
      FirstTitleSnoc(before, last, k);
      FirstTitleSnoc(init, last, k);
      assert entries == init + [last];
    }
  }

  /** The normalized plan gives each block the title the plan gives it first, and a block zero the plan does not
      name one made from its text. */
  lemma {:induction false} NormalizedTitle(ops: TitleOps, plan: seq<Entry>, blocks: BlockMap, k: int)
    requires forall j :: j in blocks ==> 0 <= j
    ensures var normalized := Normalize(ops, plan, blocks);
            FirstTitle(normalized, k) ==
              if k !in blocks then None
              else if FirstTitle(plan, k).Some? then FirstTitle(plan, k)
              else if k == 0 && normalized != [] then Some(ops.fromText(blocks[0].text, 1))
              else None
  {
    hide Sort, Dedup;
    var deduped := Dedup(Sort(ByIndex, plan), blocks);
    SortKeepsFirst(plan, k);
    DedupKeepsFirst(Sort(ByIndex, plan), blocks, k);
    if deduped != [] && 0 in blocks {
      FirstTitleCons(Entry(0, ops.fromText(blocks[0].text, 1)), deduped, k);
      ByIndexIsPreorder();
      SortOrders(ByIndex, plan);
      DedupIncreases(Sort(ByIndex, plan), blocks);
      TitledWhenNamed(deduped, 0);
      InIndices(deduped, 0);
    }
  }

  /** Starts are the gap apart unless the later entry is the last candidate. */
  ghost predicate GapAt(kept: seq<Entry>, blocks: BlockMap, minGap: int, lastIndex: int, i: nat)
    requires AllMapped(kept, blocks) && 0 < i < |kept|
  {
    kept[i].blockIndex == lastIndex || StartOf(kept, blocks, i) - StartOf(kept, blocks, i - 1) >= minGap
  }

  ghost predicate IndicesWithin(kept: seq<Entry>, bound: int) {
    forall i :: 0 <= i < |kept| ==> kept[i].blockIndex <= bound
  }

  lemma {:induction false} FilterIncreases(entries: seq<Entry>, blocks: BlockMap, minGap: int, lastIndex: int)
    requires IndicesIncrease(entries)
    ensures IndicesIncrease(Filter(entries, blocks, minGap, lastIndex))
    ensures entries != [] ==>
              IndicesWithin(Filter(entries, blocks, minGap, lastIndex), entries[|entries| - 1].blockIndex)
  {
    if entries != [] {
      var init, last := entries[..|entries| - 1], entries[|entries| - 1];
      var before := Filter(init, blocks, minGap, lastIndex);
      FilterIncreases(init, blocks, minGap, lastIndex);
      if init != [] {
        var previous := entries[|entries| - 2].blockIndex;
        assert IndicesWithin(before, previous) && previous < last.blockIndex;
      }
      assert forall i :: 0 <= i < |before| ==> before[i].blockIndex < last.blockIndex;
    }
  }

  /** Filtering keeps the first entry. */
  lemma {:induction false} FilterKeepsFirst(entries: seq<Entry>, blocks: BlockMap, minGap: int, lastIndex: int)
    requires AllMapped(entries, blocks)
    ensures entries == [] <==> Filter(entries, blocks, minGap, lastIndex) == []
    ensures entries != [] ==> Filter(entries, blocks, minGap, lastIndex)[0] == entries[0]
  {
    if entries != [] {
      FilterKeepsFirst(entries[..|entries| - 1], blocks, minGap, lastIndex);
    }
  }

  lemma {:induction false} FilterSpaces(entries: seq<Entry>, blocks: BlockMap, minGap: int, lastIndex: int)
    ensures AllMapped(Filter(entries, blocks, minGap, lastIndex), blocks)
    ensures forall i :: 0 < i < |Filter(entries, blocks, minGap, lastIndex)| ==>
              GapAt(Filter(entries, blocks, minGap, lastIndex), blocks, minGap, lastIndex, i)
  {
    FilterMapped(entries, blocks, minGap, lastIndex);
    if entries != [] {
      var init, last := entries[..|entries| - 1], entries[|entries| - 1];
      var before, kept := Filter(init, blocks, minGap, lastIndex), Filter(entries, blocks, minGap, lastIndex);
      FilterSpaces(init, blocks, minGap, lastIndex);
      forall i | 0 < i < |kept|
        ensures GapAt(kept, blocks, minGap, lastIndex, i)
      {
        if i < |before| {
          assert GapAt(before, blocks, minGap, lastIndex, i);
        }
      }
    }
  }

  /** An entry is dropped only for starting less than the gap behind a kept one, and never the last candidate. */
  lemma {:induction false} DroppedIsTooClose(entries: seq<Entry>, blocks: BlockMap, minGap: int, lastIndex: int, i: nat)
    returns (j: nat)
    requires AllMapped(entries, blocks) && i < |entries|
    requires entries[i] !in Filter(entries, blocks, minGap, lastIndex)
    ensures AllMapped(Filter(entries, blocks, minGap, lastIndex), blocks)
            && j < |Filter(entries, blocks, minGap, lastIndex)|
    ensures StartOf(entries, blocks, i) - StartOf(Filter(entries, blocks, minGap, lastIndex), blocks, j) < minGap
    ensures entries[i].blockIndex != lastIndex
  {
    var init := entries[..|entries| - 1];
    var before := Filter(init, blocks, minGap, lastIndex);
    FilterMapped(entries, blocks, minGap, lastIndex);
    FilterMapped(init, blocks, minGap, lastIndex);
    if i < |init| {
      assert forall e :: e in before ==> e in Filter(entries, blocks, minGap, lastIndex);
      j := DroppedIsTooClose(init, blocks, minGap, lastIndex, i);
    } else {
      j := |before| - 1;
    }
  }

  // ---------- the tiling ----------

  /** Chapters that follow one another without gap from `first` on, each starting strictly later. */
  ghost predicate Tiles(chapters: seq<Chapter>, first: int, totalMs: int) {
    && chapters != [] && chapters[0].startMs == first
    && (forall i :: 0 <= i < |chapters| - 1 ==>
          chapters[i].startMs < chapters[i].endMs && chapters[i].endMs == chapters[i + 1].startMs)
    && chapters[|chapters| - 1].endMs == Max(chapters[|chapters| - 1].startMs, totalMs)
  }

  /** The candidate has a block, and it is the first kept, or starts the gap behind the one kept before it, or is
      as far on as the last candidate. */
  ghost predicate IsKept(entries: seq<Entry>, blocks: BlockMap, minGap: int, lastIndex: int, at: seq<nat>, i: nat)
    requires i < |entries| && forall k :: 0 <= k < |at| ==> at[k] < |entries|
  {
    && entries[i].blockIndex in blocks
    && forall k {:trigger at[k]} :: 0 <= k < |at| && at[k] < i && (k == |at| - 1 || i <= at[k + 1]) ==>
         FarBehind(entries, blocks, minGap, lastIndex, at[k], i)
  }

  predicate FarBehind(entries: seq<Entry>, blocks: BlockMap, minGap: int, lastIndex: int, j: nat, i: nat)
    requires j < |entries| && i < |entries|
  {
    || entries[i].blockIndex == lastIndex
    || (entries[i].blockIndex in blocks && entries[j].blockIndex in blocks
        && blocks[entries[i].blockIndex].startMs - blocks[entries[j].blockIndex].startMs >= minGap)
  }

  /** The kept candidates are those at the positions, in their order. */
  ghost predicate KeptAt(kept: seq<Entry>, entries: seq<Entry>, at: seq<nat>) {
    && |kept| == |at|
    && (forall k :: 0 <= k < |at| ==> at[k] < |entries| && kept[k] == entries[at[k]])
    && (forall k, m :: 0 <= k < m < |at| ==> at[k] < at[m])
  }

  lemma {:induction false} FilterKeepsAt(entries: seq<Entry>, blocks: BlockMap, minGap: int, lastIndex: int)
    returns (at: seq<nat>)
    ensures KeptAt(Filter(entries, blocks, minGap, lastIndex), entries, at)
    ensures forall i :: 0 <= i < |entries| ==> (i in at <==> IsKept(entries, blocks, minGap, lastIndex, at, i))
  {
    if entries == [] {
      at := [];
    } else {
      hide Passes, IsKept;
      var n := |entries| - 1;
      var before := Filter(entries[..n], blocks, minGap, lastIndex);
      var earlier := FilterKeepsAt(entries[..n], blocks, minGap, lastIndex);
      KeptLast(entries, blocks, minGap, lastIndex, earlier);
      if Passes(before, entries[n], blocks, minGap, lastIndex) {
        at := earlier + [n];
        KeptSnoc(before, entries, earlier);
      } else {
        at := earlier;
        KeptSame(before, entries, earlier);
      }
      forall i: nat | i < |entries|
        ensures i in at <==> IsKept(entries, blocks, minGap, lastIndex, at, i)
      {
        if i < n {
          KeptEarlier(entries, blocks, minGap, lastIndex, earlier, i);
        }
      }
    }
  }

  lemma {:induction false} KeptSame(before: seq<Entry>, entries: seq<Entry>, at: seq<nat>)
    requires entries != [] && KeptAt(before, entries[..|entries| - 1], at)
    ensures KeptAt(before, entries, at) && |entries| - 1 !in at
  {
  }

  lemma {:induction false} KeptSnoc(before: seq<Entry>, entries: seq<Entry>, at: seq<nat>)
    requires entries != [] && KeptAt(before, entries[..|entries| - 1], at)
    ensures KeptAt(before + [entries[|entries| - 1]], entries, at + [|entries| - 1])
  {
  }

  /** The last candidate is judged by the one kept before it. */
  lemma {:induction false} KeptLast(entries: seq<Entry>, blocks: BlockMap, minGap: int, lastIndex: int, at: seq<nat>)
    requires entries != []
    requires KeptAt(Filter(entries[..|entries| - 1], blocks, minGap, lastIndex), entries[..|entries| - 1], at)
    ensures var n, before := |entries| - 1, Filter(entries[..|entries| - 1], blocks, minGap, lastIndex);
            && (Passes(before, entries[n], blocks, minGap, lastIndex)
                <==> IsKept(entries, blocks, minGap, lastIndex, at, n))
            && (IsKept(entries, blocks, minGap, lastIndex, at, n)
                <==> IsKept(entries, blocks, minGap, lastIndex, at + [n], n))
  {
    var n, longer := |entries| - 1, at + [|entries| - 1];
    FilterMapped(entries[..n], blocks, minGap, lastIndex);
    assert forall k :: 0 <= k < |at| ==> longer[k] == at[k] && at[k] < n;
    if at != [] {
      assert at[|at| - 1] < n && longer[|at|] == n;
    }
  }

  /** Whether an earlier candidate is kept does not depend on the last one. */
  lemma {:induction false} KeptEarlier(entries: seq<Entry>, blocks: BlockMap, minGap: int, lastIndex: int, at: seq<nat>,
                                       i: nat)
    requires i < |entries| - 1 && forall k :: 0 <= k < |at| ==> at[k] < |entries| - 1
    ensures IsKept(entries[..|entries| - 1], blocks, minGap, lastIndex, at, i)
            <==> IsKept(entries, blocks, minGap, lastIndex, at, i)
    ensures IsKept(entries[..|entries| - 1], blocks, minGap, lastIndex, at, i)
            <==> IsKept(entries, blocks, minGap, lastIndex, at + [|entries| - 1], i)
  {
    var longer := at + [|entries| - 1];
    assert forall k :: 0 <= k < |at| ==> longer[k] == at[k];
  }

  /** Which candidates the filtered plan keeps: those with a block that are the first kept, or start the gap behind
      the one kept before them, or name the block of the last candidate of all. */
  lemma {:induction false} FilteredExactly(normalized: seq<Entry>, blocks: BlockMap, minGap: int)
    returns (at: seq<nat>)
    ensures KeptAt(FilterPlan(normalized, blocks, minGap), normalized, at)
    ensures forall i :: 0 <= i < |normalized| ==>
              (i in at <==> IsKept(normalized, blocks, minGap, normalized[|normalized| - 1].blockIndex, at, i))
  {
    at := [];
    if normalized != [] {
      at := FilterKeepsAt(normalized, blocks, minGap, normalized[|normalized| - 1].blockIndex);
    }
  }

  /** Starts are the gap apart, except perhaps before the last chapter. */
  ghost predicate GapsKept(chapters: seq<Chapter>, minGap: int) {
    forall i :: 0 < i < |chapters| - 1 ==> chapters[i].startMs - chapters[i - 1].startMs >= minGap
  }

  lemma {:induction false} PlannedShape(ops: TitleOps, plan: seq<Entry>, blocks: seq<PlanBlock>, minGap: int,
                                        window: int)
    requires WellBuilt(blocks, window) && Planned(ops, plan, blocks, minGap) != []
    ensures var planned, m := Planned(ops, plan, blocks, minGap), MapBlocks(blocks);
            && AllMapped(planned, m) && IndicesIncrease(planned)
            && planned[0].blockIndex == 0
            && (forall i :: 0 < i < |planned| - 1 ==> StartOf(planned, m, i) - StartOf(planned, m, i - 1) >= minGap)
  {
    var m := MapBlocks(blocks);
    forall k | k in m
      ensures 0 <= k
    {
      MapOfWellBuilt(blocks, window, k);
    }
    var normalized := Normalize(ops, plan, m);
    NormalizedShape(ops, plan, m);
    var lastIndex := normalized[|normalized| - 1].blockIndex;
    FilterIncreases(normalized, m, minGap, lastIndex);
    FilterKeepsFirst(normalized, m, minGap, lastIndex);
    FilterSpaces(normalized, m, minGap, lastIndex);
    var planned := Planned(ops, plan, blocks, minGap);
    MapOfWellBuilt(blocks, window, planned[|planned| - 1].blockIndex);
    MapOfWellBuilt(blocks, window, 0);
    forall i | 0 < i < |planned| - 1
      ensures StartOf(planned, m, i) - StartOf(planned, m, i - 1) >= minGap
    {
      assert GapAt(planned, m, minGap, lastIndex, i);
      assert planned[i].blockIndex < planned[|planned| - 1].blockIndex <= lastIndex;
    }
  }

  lemma {:induction false} StartsIncrease(entries: seq<Entry>, blocks: seq<PlanBlock>, window: int, i: nat, j: nat)
    requires WellBuilt(blocks, window) && AllMapped(entries, MapBlocks(blocks)) && IndicesIncrease(entries)
    requires i < j < |entries|
    ensures 0 <= StartOf(entries, MapBlocks(blocks), i)
    ensures StartOf(entries, MapBlocks(blocks), i) + window <= StartOf(entries, MapBlocks(blocks), j)
  {
    MapOfWellBuilt(blocks, window, entries[i].blockIndex);
    MapOfWellBuilt(blocks, window, entries[j].blockIndex);
  }

  /** For blocks as the builder leaves them and any plan: no chapters when the plan names no block or
      leaves a single chapter of a long episode; otherwise chapters that tile the episode from the
      first block on, the gap apart except before the last. */
  lemma {:induction false} ChaptersTile(ops: TitleOps, plan: seq<Entry>, blocks: seq<PlanBlock>, totalMs: int,
                                        minGap: int, window: int, chapters: seq<Chapter>)
    requires WellBuilt(blocks, window) && 0 < window
    requires Planned(ops, plan, blocks, minGap) != []
    requires AllMapped(Planned(ops, plan, blocks, minGap), MapBlocks(blocks))
    requires |chapters| == |Planned(ops, plan, blocks, minGap)|
    requires forall i :: 0 <= i < |chapters| ==>
               chapters[i] == ChapterAt(ops, Planned(ops, plan, blocks, minGap), MapBlocks(blocks), totalMs, i)
    ensures blocks != [] && Tiles(chapters, blocks[0].startMs, totalMs) && GapsKept(chapters, minGap)
  {
    var planned, m := Planned(ops, plan, blocks, minGap), MapBlocks(blocks);
    PlannedShape(ops, plan, blocks, minGap, window);
    MapOfWellBuilt(blocks, window, 0);
    forall i | 0 <= i < |planned|
      ensures 0 <= StartOf(planned, m, i)
    {
      MapOfWellBuilt(blocks, window, planned[i].blockIndex);
    }
    forall i | 0 <= i < |chapters| - 1
      ensures chapters[i].startMs < chapters[i].endMs && chapters[i].endMs == chapters[i + 1].startMs
    {
      StartsIncrease(planned, blocks, window, i, i + 1);
    }
  }

  lemma {:induction false} PlannedEmpty(ops: TitleOps, plan: seq<Entry>, blocks: seq<PlanBlock>, minGap: int,
                                        window: int)
    requires WellBuilt(blocks, window)
    ensures Planned(ops, plan, blocks, minGap) == []
            <==> forall i :: 0 <= i < |plan| ==> !(0 <= plan[i].blockIndex < |blocks|)
  {
    var m := MapBlocks(blocks);
    forall k
      ensures k in m <==> 0 <= k < |blocks|
    {
      MapOfWellBuilt(blocks, window, k);
    }
    var normalized := Normalize(ops, plan, m);
    NormalizedEmpty(ops, plan, m);
    NormalizedShape(ops, plan, m);
    if normalized != [] {
      FilterKeepsFirst(normalized, m, minGap, normalized[|normalized| - 1].blockIndex);
    }
  }

  // ---------- from transcript to chapters ----------

  function ForPlanning(blocks: seq<TopicBlocks.TopicBlock>): (out: seq<PlanBlock>)
    ensures |out| == |blocks|
    ensures forall i :: 0 <= i < |blocks| ==>
              out[i] == PlanBlock(blocks[i].blockIndex, blocks[i].startMs, blocks[i].text)
  {
    if blocks == [] then []
    else
      var last := blocks[|blocks| - 1];
      ForPlanning(blocks[..|blocks| - 1]) + [PlanBlock(last.blockIndex, last.startMs, last.text)]
  }

  /** Builds the blocks of a transcript and applies a plan to them: the chapters are empty, or tile the
      episode from the first block on. */
  method ChaptersOfEpisode(text: TopicBlocks.TextOps, ops: TitleOps, segments: seq<TopicBlocks.Segment>, totalMs: int,
                           targetCount: int, minSeconds: int, maxSeconds: int, maxChars: int, markers: bool,
                           plan: seq<Entry>, minGap: int)
    returns (blocks: seq<TopicBlocks.TopicBlock>, chapters: seq<Chapter>)
    ensures chapters == []
            || (blocks != []
                && ((forall i :: 0 <= i < |segments| ==> 0 <= segments[i].startMs) ==>
                      Tiles(chapters, blocks[0].startMs, totalMs) && GapsKept(chapters, minGap)))
    ensures (forall i :: 0 <= i < |segments| ==> 0 <= segments[i].startMs) ==>
              (chapters == [] <==>
                 || (forall i :: 0 <= i < |plan| ==> !(0 <= plan[i].blockIndex < |blocks|))
                 || (totalMs >= 1_200_000 && |Planned(ops, plan, ForPlanning(blocks), minGap)| == 1))
  {
    blocks := TopicBlocks.BuildTopicBlocks(text, segments, totalMs, targetCount, minSeconds, maxSeconds, maxChars,
                                           markers);
    var planBlocks := ForPlanning(blocks);
    chapters := ChaptersFromTopicPlan(ops, plan, planBlocks, totalMs, minGap);
    NothingPlanned(ops, plan, planBlocks, minGap);
    if forall i :: 0 <= i < |segments| ==> 0 <= segments[i].startMs {
      var window := TopicBlocks.BlockWindow(totalMs, targetCount, minSeconds, maxSeconds);
      TopicBlocks.BlockWindowBounds(totalMs, targetCount, minSeconds, maxSeconds);
      BlocksStartLate(text, segments, window, markers);
      assert WellBuilt(planBlocks, window);
      PlannedEmpty(ops, plan, planBlocks, minGap, window);
      if chapters != [] {
        ChaptersTile(ops, plan, planBlocks, totalMs, minGap, window, chapters);
      }
    }
  }

  /** Blocks of a transcript that starts at or after zero do too. */
  lemma {:induction false} BlocksStartLate(text: TopicBlocks.TextOps, segments: seq<TopicBlocks.Segment>, window: int,
                                           markers: bool)
    requires forall i :: 0 <= i < |segments| ==> 0 <= segments[i].startMs
    ensures forall i :: 0 <= i < |TopicBlocks.Kept(text, TopicBlocks.Group(text, segments, window, markers))| ==>
              0 <= TopicBlocks.Kept(text, TopicBlocks.Group(text, segments, window, markers))[i].startMs
  {
    GroupStartsLate(text, segments, window, markers);
    KeptStartsLate(text, TopicBlocks.Group(text, segments, window, markers));
  }

  lemma {:induction false} GroupStartsLate(text: TopicBlocks.TextOps, segments: seq<TopicBlocks.Segment>, window: int,
                                           markers: bool)
    requires forall i :: 0 <= i < |segments| ==> 0 <= segments[i].startMs
    ensures forall i :: 0 <= i < |TopicBlocks.Group(text, segments, window, markers)| ==>
              0 <= TopicBlocks.Group(text, segments, window, markers)[i].startMs
  {
    if segments != [] {
      GroupStartsLate(text, segments[..|segments| - 1], window, markers);
    }
  }

  lemma {:induction false} KeptStartsLate(text: TopicBlocks.TextOps, blocks: seq<TopicBlocks.Block>)
    requires forall i :: 0 <= i < |blocks| ==> 0 <= blocks[i].startMs
    ensures forall i :: 0 <= i < |TopicBlocks.Nonempty(text, blocks)| ==>
              0 <= TopicBlocks.Nonempty(text, blocks)[i].startMs
  {
    if blocks != [] {
      KeptStartsLate(text, blocks[..|blocks| - 1]);
    }
  }

  // ---------- what a chapter says ----------

  lemma {:induction false} OwnTitle(entries: seq<Entry>, i: nat)
    requires IndicesIncrease(entries) && i < |entries|
    ensures FirstTitle(entries, entries[i].blockIndex) == Some(entries[i].title)
  {
    var n := |entries| - 1;
    if i < n {
      OwnTitle(entries[..n], i);
    } else {
      NoTitle(entries[..n], entries[n].blockIndex);
    }
  }

  lemma {:induction false} NoTitle(entries: seq<Entry>, k: int)
    requires forall i :: 0 <= i < |entries| ==> entries[i].blockIndex != k
    ensures FirstTitle(entries, k).None?
  {
    if entries != [] {
      NoTitle(entries[..|entries| - 1], k);
    }
  }

  /** A chapter has the title the plan gives its block first, without white space around it. Where that leaves nothing
      it has one made from the block's text and the chapter's number, and a first block the plan does not name one made
      as if for chapter one. It starts with its block, and ends where the next chapter's starts, or with the episode. */
  lemma {:induction false} ChapterSays(ops: TitleOps, plan: seq<Entry>, blocks: seq<PlanBlock>, minGap: int,
                                       totalMs: int, i: nat)
    requires forall k :: k in MapBlocks(blocks) ==> 0 <= k
    requires i < |Planned(ops, plan, blocks, minGap)|
    requires AllMapped(Planned(ops, plan, blocks, minGap), MapBlocks(blocks))
    ensures var planned, m := Planned(ops, plan, blocks, minGap), MapBlocks(blocks);
            var c, block := ChapterAt(ops, planned, m, totalMs, i), m[planned[i].blockIndex];
            var given := FirstTitle(plan, planned[i].blockIndex);
            var title := ops.trim(if given.Some? then given.value else ops.fromText(block.text, 1));
            var stop := if i + 1 < |planned| then m[planned[i + 1].blockIndex].startMs else totalMs;
            && (given.None? ==> planned[i].blockIndex == 0)
            && (title != "" ==> c.title == title)
            && (title == "" ==> c.title == ops.fromText(block.text, i + 1))
            && c.startMs == (if block.startMs < 0 then 0 else block.startMs)
            && c.endMs == (if stop < block.startMs then block.startMs else stop)
  {
    hide Normalize, Filter, FirstTitle, MapBlocks;
    var m := MapBlocks(blocks);
    var normalized := Normalize(ops, plan, m);
    var planned := Planned(ops, plan, blocks, minGap);
    NormalizedShape(ops, plan, m);
    var at := FilteredExactly(normalized, m, minGap);
    assert planned[i] == normalized[at[i]];
    OwnTitle(normalized, at[i]);
    NormalizedTitle(ops, plan, m, planned[i].blockIndex);
  }
}
