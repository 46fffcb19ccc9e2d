# Verification of the podcast cutter's algorithms and protocols

This project models, in Dafny, the parts of the podcast server where a small slip would cut the wrong audio, lose a
log record or never settle, and proves what those parts guarantee.

- **Windows and the cut** (`Windows`, `AudioCut`). Windows to remove are coalesced, inverted into kept audio, and
  turned into the stream plan of the fading cut. Coalescing is shown to be a canonical form. Keeping partitions the
  file, and the fading plan never replays audio, each under its exact condition.
- **The edited timeline** (`Timeline`). The point map, the accumulated ad markers, and the set subtraction that
  splits censor windows are separate computations in the source. They are shown to agree with the cut itself: the
  point map counts the kept milliseconds, and censor windows conserve measure.
- **The cutter's merge and the audio bridge** (`CutterMerge`, `AudioBridge`): edge fragments, the in-place joining
  loop, the short tail, and the greedy coverage sweep.
- **Episode statistics** (`Statistics`): the merged ads, the resolved durations, the ad markers and the censor windows
  composed, and shown to agree with the cut that the audio cutter makes of the same ads.
- **Text algorithms** (`Lcs`, `RepeatAds`, `JsonScan`, `WordBoundary`): the rolling-row longest common subsequence and
  the greedy repeat-ad scan on top of it, the brace scanner against the JSON grammar of RFC 8259, and the lazily
  loading word-boundary path against the one that loads a whole episode (`WordGuard` has the exact guard under which the
  two agree for every transcript, `WordAnswers` what they answer).
- **Chapters** (`TopicBlocks`, `TopicBlocksAnswer`, `TopicPlan`): from transcript segments to topic blocks, and from a
  plan over those blocks to chapters that tile the episode.
- **Feed refresh** (`FeedRefresh`, `FeedPosts`): the planner and the writer that applies its plan. Plan and apply
  converge for every feed, after a number of rounds that is stated exactly.
- **Log rotation** (`LogRotation`, `LogHandler`, `QuietEmit`, `LateRecord`): any number of processes emit to and
  rotate one log file, as interleaved atomic steps over a directory, a lock and the streams they hold, and may die at
  any of them. The handler itself, as a class, takes exactly those steps, one record after another, while other
  processes do what they like before each of them. `LateRecord` runs it through a rotation between its test and its
  write.
- **Pricing cache** (`PricingCache`): the bounded, expiring cache in front of the pricing helper, as a class with the
  history of its use.

`Basics` and `Sorting` hold what the others share. Code that loops and assigns is modelled as methods with loops,
proved equal to a specification function (or to fully stated new state); the theorems are lemmas about those
functions and about whole runs. Every time of the window code is a whole number of milliseconds. `WordBoundary`,
`Lcs` and `PricingCache` use exact reals. Text handling that depends on Unicode is a parameter wherever it occurs.

## What turned out to have conditions

- The cutter's joins replace an end instead of taking the greater one (`rust/src/main.rs:3284`, and likewise at the
  edges, `rust/src/main.rs:3262`, `rust/src/main.rs:3275`), so an ad nested in another can uncover the rest of it
  (`NestedAdShrinks`). Group the sorted ads into the runs that the leading, trailing and closeness joins make. The
  merge holds every ad of the minimum length if and only if each ends no later than the last ad of its group, or its
  group is the last one, long enough, and extended to the end of the file (`MergeCoversExactly`). `AdKeptExactly` says
  the same of any one ad, short ones included, and `JoinCoversExactly` of the joining loop alone.
- Merging twice changes nothing exactly when the first run leaves no short tail within 20 s of its neighbour
  (`MergeIdempotent`). The sorted ads decide that (`LeavesFragment`): the last group is short and near the end of the
  file, its last ad would be put back short, and the last long group before it lasts at least 15 s and ends at most
  20 s before that ad. `SecondRunAbsorbsTail` is such a run. A separation of at least 20 s rules it out.
- The reported duration of an episode is resolved again after the merge, from less ad time when short ads are dropped.
  The edited duration is the length of the audio kept exactly when no ad block ends after that duration
  (`EditedDurationExact`), and one can (`BlockOverrunsDuration`). For ads inside the transcript one does exactly when
  the last ad stops within the last separation of a measured file that is longer than its transcript, and merging
  takes ad time away (`OverrunsExactly`).
- The point map agrees with the cut at every time exactly when no two windows overlap (`PointMapExact`).
- The lazy word-boundary path is the full one over the rows it loads and the entries it parses, on every input
  (`LazyIsFullOverLoaded`). For a phrase the two agree exactly when both readings place it alike or a limit hides the
  difference (`PhraseStartsAgree`, `PhraseEndsAgree`); for a word they agree unless its segment does not exist, and
  then exactly as `FallbackDiffers` says. Over all texts and words at once, a phrase is found alike exactly when both
  paths search the segments of the same numbers and, if the stored array does not parse, none of those has an entry in
  it (`StartGuardExact`, `EndGuardExact`). The paths do differ: one entry without a sequence number makes the typed
  parse of the lazy path fail for the whole array, while the full path skips only that entry
  (`UnnumberedEntryDiffers`); an empty window (`EmptyWindowDiffers`) and a missing segment (`MissingSegmentDiffers`)
  change the rows that are looked at.
- A feed is settled after one round exactly when no stored post is matched by two entries, and the feed's artwork stayed
  the same or every item has its own (`OneRound`). After two or more rounds the next plan is empty exactly when no chain
  of that many moved guids was stored at first (`RoundsNeeded`, `TwoRounds`): posts each of which has the URL of one
  entry and the guid of the next. As many rounds as the feed has items always suffice (`AlwaysConverges`), and
  `SharedPostNeedsMore` is a feed that two rounds do not settle.
- The planner compares the dates of stored posts as text up to the first `T`. The database writes a space there, so a
  new post of the same day as the oldest stored post counts as an archive post. The Python planner compares days and
  does not (`src/app/feeds.py:464`); the model follows the Rust code (`ArchiveByDay`).

## Model

| member | source | states |
|---|---|---|
| Windows.CoalesceCorrect | rust/src/main.rs:5679-5691 | coalesced windows are nonempty, in order, more than the gap apart, and cover exactly what the input covers or bridges |
| Windows.CoalesceCanonical | rust/src/main.rs:5679-5691 | two lists coalesce to the same list if and only if they fill the same milliseconds, so order and repetition never matter |
| Windows.SeparatedIsFixpoint | rust/src/main.rs:5679-5691 | a list already separated comes back unchanged |
| Windows.CoalesceIdempotent | rust/src/main.rs:5679-5691 | coalescing twice is coalescing once |
| AudioCut.MergeWindows | rust/src/main.rs:5679-5691 | the in-place merging loop computes the coalesced list with gap zero |
| AudioCut.ReadWindows | rust/src/main.rs:5667-5677 | reading drops empty windows and merges the rest: the result is separated and covers exactly the union |
| AudioCut.KeepSegments | rust/src/main.rs:5693-5706 | the inverting loop computes the gaps between windows and the tail of the file |
| AudioCut.KeepPartitions | rust/src/main.rs:5693-5706 | kept and removed windows partition [0, duration) if and only if no window starts after the end |
| AudioCut.KeepConserves | rust/src/main.rs:5693-5706 | kept and removed lengths add up to the file if and only if the last window ends inside it |
| AudioCut.PlanStreams | rust/src/main.rs:5474-5487 | the planning loop computes the streams of the fading cut |
| AudioCut.CutAudioWithFade | rust/src/main.rs:5466-5522 | the plan is the audible streams, none before the file's start, and playing none is an error |
| AudioCut.FadePlanReplay | rust/src/main.rs:5474-5487 | the source ranges are in order and never replay audio if and only if every window is at least twice the fade |
| AudioCut.FadePlanLength | rust/src/main.rs:5474-5487 | the output lasts the file minus each window's length less two fades, if and only if the windows end inside the file |
| AudioCut.ZeroFadeIsExactCut | rust/src/main.rs:5474-5522 | a fade of zero plays exactly the segments of the plain cut |
| AudioCut.FadePlanPlays | rust/src/main.rs:5474-5487 | which millisecond plays unfaded, fading out and fading in, for every millisecond |
| Timeline.MapTimeToEditedTimeline | rust/src/main.rs:4887-4900 | the accumulating loop, with its early exit, computes the point map |
| Timeline.PointMapCountsKept | rust/src/main.rs:4887-4900 | on disjoint windows a time maps to the number of kept milliseconds before it |
| Timeline.PointMapExact | rust/src/main.rs:4887-4900 | for start-sorted windows the map counts the kept milliseconds at all times if and only if no two windows overlap |
| Timeline.PointMapIsThePlaceInTheCut | rust/src/main.rs:5693-5706 | a time in the i-th kept segment maps to the lengths of the earlier segments plus its offset |
| Timeline.PointMapMonotone | rust/src/main.rs:4887-4900 | the map never runs backwards and sends each removed window to one point |
| Timeline.PointMapEnd | rust/src/main.rs:4887-4900 | the end of the file maps to its length less everything removed |
| Timeline.BuildAdMarkers | rust/src/main.rs:4838-4859 | one marker for each nonempty window in start order, at the accumulated place |
| Timeline.MarkerIsPointMap | rust/src/main.rs:4838-4859 | on disjoint windows the accumulated marker is the point map of both ends of its window |
| Timeline.SubtractRemovedWindows | rust/src/main.rs:4902-4924 | the nested carving loops compute the subtraction |
| Timeline.SubtractCovers | rust/src/main.rs:4902-4924 | the pieces cover exactly the window minus everything removed, for any lists |
| Timeline.SubtractDisjoint | rust/src/main.rs:4902-4924 | the pieces are nonempty, in order, disjoint and inside the window |
| Timeline.BuildEditedBleepWindows | rust/src/main.rs:4861-4885 | the emitted windows are the retained pieces of all censor windows in start order, and on disjoint cuts each runs between the amounts of audio kept before its two ends |
| Timeline.UntouchedKeepsLength | rust/src/main.rs:4861-4885 | a piece that meets no removed window keeps its length on the edited timeline |
| Timeline.BleepConserved | rust/src/main.rs:4861-4924 | the edited pieces of a censor window stand between the amounts of audio kept before their ends, keep their lengths and order and add up to what the cut leaves of it |
| Timeline.BleepsPlaced | rust/src/main.rs:4861-4885 | over any list of censor windows every retained piece is emitted, in order and at its place in the cut, and nothing else |
| Timeline.BleepsConserved | rust/src/main.rs:4861-4885 | the same total over any list of censor windows |
| Timeline.EmptyBleepVanishes | rust/src/main.rs:4861-4885 | an empty or reversed censor window leaves nothing behind |
| CutterMerge.JoinClose | rust/src/main.rs:3281-3289 | the in-place remove loop computes the left-to-right joining of close windows |
| CutterMerge.MergeEdges | rust/src/main.rs:3253-3279 | the leading and trailing fragments are joined in place as specified |
| CutterMerge.DropShort | rust/src/main.rs:3291-3291 | retaining keeps exactly the windows of the minimum length, in order |
| CutterMerge.FinishTail | rust/src/main.rs:3293-3304 | the remembered last window is restored and the tail extended |
| CutterMerge.MergeCutterAdSegments | rust/src/main.rs:3235-3309 | the whole method computes the composition of those stages on the sorted ads |
| CutterMerge.MergeSettles | rust/src/main.rs:3235-3309 | the merged ads lie inside the file, more than the separation apart; a short one ends with the file; none stops inside the last separation |
| CutterMerge.MergeCoversExactly | rust/src/main.rs:3235-3309 | every ad of the minimum length lies inside one merged ad if and only if each ends no later than the last ad of its group, or its group is the last one, long enough, and runs to the end of the file |
| CutterMerge.AdKeptExactly | rust/src/main.rs:3235-3309 | for any ad, short ones included: it lies inside one merged ad if and only if its group is kept and reaches its end, or the tail put back starts where it does |
| CutterMerge.MergeCovers | rust/src/main.rs:3235-3309 | the special case without nesting: every ad of the minimum length lies inside one merged ad |
| CutterMerge.JoinCoversExactly | rust/src/main.rs:3281-3289 | joining keeps every window covered if and only if each run of close windows ends with its greatest end |
| CutterMerge.LeadingAdKept | rust/src/main.rs:3253-3264 | with no nesting, a short first ad apart from a long second one is held if and only if it starts in the first 30 s, the second lasts 15 s and starts within 20 s of its end |
| CutterMerge.TrailingAdKept | rust/src/main.rs:3265-3279 | the same at the tail, for a last ad outside the last separation, by the last 30 s of the file |
| CutterMerge.NestedAdShrinks | rust/src/main.rs:3284-3284 | a concrete nested ad that leaves the ad around it uncovered |
| CutterMerge.MergeIdempotent | rust/src/main.rs:3235-3309 | merging the result again changes nothing if and only if the groups of the sorted ads leave no short tail next to a long enough neighbour, which is also the trailing-fragment test on the result; a 20 s separation suffices |
| CutterMerge.SecondRunAbsorbsTail | rust/src/main.rs:3265-3279 | concrete ads whose merge leaves such a tail, which merging again absorbs |
| Statistics.BuildStatistics | rust/src/main.rs:3387-3486 | merged blocks, durations resolved before and after the merge (4810-4836), one marker per block at the audio kept before it, and the pieces of the censor windows between the audio kept before their ends |
| Statistics.DurationIs | rust/src/main.rs:4810-4836 | the resolved duration from the measured length, the latest transcript end and the latest censor window, in every case |
| Statistics.MarkersMatchCut | rust/src/main.rs:3399-3468 | the audio cutter removes exactly the merged ads, and each one's marker stands at the amount of audio kept before it, at both its ends |
| Statistics.BleepsMatchCut | rust/src/main.rs:3399-3476 | the edited censor windows last as long as what the merged ads leave of the original ones |
| Statistics.EditedDurationExact | rust/src/main.rs:3413-3421 | the edited duration is the length of the audio kept if and only if no merged ad ends after the duration resolved from the merged ads; none does for an episode without a measured length |
| Statistics.OverrunsExactly | rust/src/main.rs:3399-3421 | for ads inside the transcript, no ad block ends after the resolved duration if and only if the last ad stops before the last separation or the duration does not shrink, and it shrinks only for a measured file longer than its transcript whose merge takes ad time away |
| Statistics.EditedIsMeasured | rust/src/main.rs:4810-4836 | for a measured cut the edited duration is the measured length, or what the ads leave of the transcript if that is more |
| Statistics.BlockOverrunsDuration | rust/src/main.rs:3399-3421 | a concrete episode whose last ad block ends after its reported duration |
| AudioBridge.MergeFloatWindows | rust/src/main.rs:4770-4785 | the loop computes the merge with a gap of the nonempty windows |
| AudioBridge.MergeWithGapCorrect | rust/src/main.rs:4770-4785 | the result is separated by more than the gap and covers exactly the union with its small gaps filled |
| AudioBridge.GapIsCoveredByAudio | rust/src/main.rs:4745-4768 | the greedy sweep with its running coverage computes the sweep function |
| AudioBridge.GapCoveredExact | rust/src/main.rs:4745-4768 | on merged audio the sweep answers true if and only if the gap is empty or one window bridges it on its own |
| AudioBridge.GapCoveredByPoints | rust/src/main.rs:4745-4768 | on any audio in start order: a gap found covered has every millisecond, up to the tolerance at its end, in a window or by the tolerance before one, and every gap the audio covers is found |
| AudioBridge.BridgeAdWindowsWithAudio | rust/src/main.rs:4687-4710 | the stretching loop computes the bridged ads |
| AudioBridge.BridgeExact | rust/src/main.rs:4687-4710 | the bridged ads are separated and cover exactly the ads and the gaps that one merged stretch of audio bridges |
| Lcs.LcsLength | rust/src/main.rs:991-1008 | the two rolling rows compute the recurrence |
| Lcs.LengthIsLcsLength | rust/src/main.rs:991-1008 | that value is achieved by a common subsequence and exceeded by none |
| Lcs.RepeatAdSimilarity | rust/src/main.rs:1010-1019 | the score with its special cases for empty lists |
| Lcs.SimilarityLaws | rust/src/main.rs:1010-1019 | the score is symmetric, in [0, 1], and 1 if and only if the lists are equal |
| Lcs.SimilarityIs | rust/src/main.rs:1010-1019 | the score is twice the greatest length of a common subsequence over the sum of the lengths |
| RepeatAds.GrowWindow | rust/src/main.rs:1076-1090 | the window grows until it is long enough, meets an excluded segment or has the greatest number of segments |
| RepeatAds.Scan | rust/src/main.rs:1060-1112 | the loop over segments, with exclusions it adds itself, is the greedy scan |
| RepeatAds.FindRepeatAdCandidates | rust/src/main.rs:1021-1113 | for increasing numbers the candidates are exactly the repeats: windows of unexcluded segments, at most two more than the target's, whose first segment is like the target's first by 0.70 and whose tokens are like those of the target's joined text by the threshold; outside them no segment starts one; a target of fewer than six tokens has none |
| RepeatAds.ScanAnswers | rust/src/main.rs:1060-1112 | a complete scan reports exactly the repeats, with the likeness of their own tokens |
| RepeatAds.WindowTokensSplit | rust/src/main.rs:1076-1090 | a window's tokens are those of its segments one after the other |
| Basics.JoinPartsConcat | rust/src/main.rs:1040-1044 | texts are joined by single spaces (also 2521-2603) |
| RepeatAds.CandidatesUnique | rust/src/main.rs:1060-1112 | the reported candidates are determined by the segments, the target and the exclusions |
| RepeatAds.ScanUnique | rust/src/main.rs:1060-1112 | the specification of the greedy scan has one solution |
| RepeatAds.JudgedByOriginal | rust/src/main.rs:1060-1112 | for increasing numbers the exclusions added on the way never change a later decision |
| RepeatAds.CandidateSound | rust/src/main.rs:1060-1112 | each candidate meets the threshold, has at most two segments more than the target, and contains no excluded segment |
| RepeatAds.CandidateAvoids | rust/src/main.rs:1052-1057 | no candidate contains a target segment or one of an excluded range |
| RepeatAds.CandidatesDisjoint | rust/src/main.rs:1093-1109 | candidates are in order and share no sequence number |
| RepeatAds.OthersRejected | rust/src/main.rs:1060-1112 | every segment outside the candidates was excluded or fails the anchor or window test |
| JsonScan.ExtractJsonObjects | rust/src/main.rs:1682-1736 | the loop with its depth, string and escape variables computes the scanned objects |
| JsonScan.ScanConsistent | rust/src/main.rs:1682-1736 | spans are in order, disjoint and inside the text, and a start is remembered exactly inside an object |
| JsonScan.ObjectsPrefixStable | rust/src/main.rs:1682-1736 | the objects of a text are a prefix of those of any continuation |
| JsonScan.ObjectsSelfConsistent | rust/src/main.rs:1682-1736 | scanning any returned object alone returns exactly that object |
| JsonScan.ValueBalanced | rust/src/main.rs:1682-1736 | every value of the JSON grammar leaves depth and string state as they were and never drops below its depth |
| JsonScan.ObjectsFound | rust/src/main.rs:1682-1736 | on well-formed objects with filler without quotes and opening braces between them, exactly those objects are found |
| WordBoundary.LongestPartMatches | rust/src/main.rs:1286-1318 | the phrase match is an occurrence, and no longer part of the phrase occurs anywhere |
| WordBoundary.PathsBounded | rust/src/main.rs:1522-1587 | neither path moves the start more than 30 s earlier or the end more than 15 s later |
| WordAnswers.NamedStart | rust/src/main.rs:1550-1554 | without a phrase both paths answer the named segment's start, at most 30 s before the ad's, changed if and only if that differs, with no error |
| WordAnswers.NamedEnd | rust/src/main.rs:1569-1582 | the same for the named segment's end, at most 15 s behind the ad's |
| WordAnswers.NothingNamed | rust/src/main.rs:1535-1582 | where no such segment exists: the ad's own boundaries, and for a start by word the episode's first segment |
| WordAnswers.PhraseStart | rust/src/main.rs:1535-1549 | the start by a phrase is its time in the row that answers: the named one if it has the phrase, else the context row with the least number that has it |
| WordAnswers.PhraseEnd | rust/src/main.rs:1583-1586 | the same for the end and the greatest number |
| WordAnswers.PhraseMissing | rust/src/main.rs:1535-1587 | a phrase no searched row has leaves the boundary where it was, with its error |
| WordAnswers.PlaceFound | rust/src/main.rs:1286-1318 | the match is the longest part of at most four words that occurs, at its first place for a start and its last for an end, and there is one whenever there is such a place |
| WordAnswers.StoredPhrase | rust/src/main.rs:1403-1420 | a match in the stored words at places i to j gives the start of word i or the end of word j |
| WordAnswers.UntimedExact | rust/src/main.rs:1403-1420 | a segment has no stored time for a phrase when its kept stored words do not hold it, or its place carries none |
| WordAnswers.SpreadPhrase | rust/src/main.rs:1422-1438 | without a stored time a match at words i to j of n gives the i-th or the (j+1)-th n-th part of the segment |
| WordAnswers.NoPhrase | rust/src/main.rs:1403-1438 | no stored time and no part in the text: no time |
| WordAnswers.StoredWords | rust/src/main.rs:2277-2313 | a segment's stored words are those of the last entry that has its number and words |
| WordBoundary.WindowIsRange | rust/src/main.rs:2236-2272 | the context by numbers is the rows of the padded number range |
| WordBoundary.LazyEqualsFull | rust/src/main.rs:2111-2221 | the lazy path returns the start, end, changed flags and errors of the full path (1589-1648) whenever the request is comparable |
| WordBoundary.LazyIsFullOverLoaded | rust/src/main.rs:2111-2221 | on every input the lazy path gives what the full path gives for the loaded rows and the parsed entries |
| WordBoundary.WindowGivesSameContext | rust/src/main.rs:2236-2272 | a window that holds a segment picks the same rows from the loaded ones as from the whole episode |
| WordBoundary.PhraseStartsAgree | rust/src/main.rs:2111-2221 | with a start phrase the paths give the same start, flag and error if and only if both readings place it alike or the 30 s limit hides the difference |
| WordBoundary.PhraseEndsAgree | rust/src/main.rs:2111-2221 | the same for the end phrase and the 15 s limit |
| WordGuard.StartGuardExact | rust/src/main.rs:2111-2221 | for rows with different numbers (src/app/models.py:226-231) that last: the paths give the same start for a phrase under every choice of texts and words if and only if they search the same numbers and an array that does not parse has no entry for them |
| WordGuard.EndGuardExact | rust/src/main.rs:2111-2221 | the same for an end phrase and the end |
| WordGuard.GuardedStart | rust/src/main.rs:2111-2221 | the guard suffices for any text operations and rows of any length |
| WordGuard.GuardedEnd | rust/src/main.rs:2111-2221 | the same for the end |
| WordBoundary.UnnumberedEntryDiffers | rust/src/main.rs:2320-2367 | a concrete input with one entry without a number: the full path finds the start phrase, the lazy path reports that it does not |
| WordBoundary.EmptyWindowDiffers | rust/src/main.rs:2236-2272 | a concrete input whose window holds no segment, with the same difference |
| WordBoundary.MissingSegmentDiffers | rust/src/main.rs:1477-1507 | a concrete input that names a segment that does not exist, with different starts |
| WordBoundary.FallbackDiffers | rust/src/main.rs:1477-1507 | in the fallback to the first segment the paths agree if and only if the first segments agree or the 30 s limit hides them |
| TopicBlocks.BlockWindowBounds | rust/src/main.rs:2451-2459 | the window lies between the least and greatest block length and is whole half minutes unless it is the greatest |
| TopicBlocks.BlockWindowExact | rust/src/main.rs:2451-2459 | the window is the wanted length between the bounds, rounded up to half minutes, or the greatest length where that is less |
| TopicBlocks.GroupSegments | rust/src/main.rs:2463-2515 | the loop with its open block computes the grouping |
| TopicBlocks.GroupSpaced | rust/src/main.rs:2463-2515 | block starts are at least one window apart, and the first block starts with the first segment |
| TopicBlocks.GroupKeepsText | rust/src/main.rs:2463-2515 | every segment's text is in exactly one block, in transcript order |
| TopicBlocks.GroupHolds | rust/src/main.rs:2463-2515 | for start-sorted segments each lies inside a block that started less than a window before it |
| TopicBlocks.KeepBlocks | rust/src/main.rs:2517-2534 | blocks with text are kept, and the first one when none has any |
| TopicBlocks.KeptChars | rust/src/main.rs:2618-2636 | the kept opening and stretch fill the budget with the separator, halve it, do not overlap, and the stretch holds the midpoint |
| TopicBlocks.TruncateFits | rust/src/main.rs:2613-2637 | text over budget is cut to exactly the budget, other text is unchanged |
| TopicBlocks.TakeRun | rust/src/main.rs:2574-2592 | the run is the longest one of whole parts that fits, or a first part clipped to the budget |
| TopicBlocks.TruncateBlockParts | rust/src/main.rs:2562-2608 | over budget, the text is a head run and a run from the middle, and never exceeds the budget |
| TopicBlocks.BuildTopicBlocks | rust/src/main.rs:2438-2555 | the blocks are numbered, keep their times and fitted text, start at least a window apart, and are empty only for an empty transcript |
| TopicBlocksAnswer.BuiltIs | rust/src/main.rs:2438-2555 | the whole answer on the segments: where the transcript is cut, when blocks start and end, what they say, which are kept and how their texts are fitted |
| TopicBlocksAnswer.GroupIsCut | rust/src/main.rs:2463-2515 | a block takes the segments that start less than a window after its first, and no more, ends with the latest of them and says those that are not blank, with their markers |
| TopicBlocksAnswer.KeptExactly | rust/src/main.rs:2517-2534 | kept are exactly the blocks with text, or the first alone |
| TopicBlocksAnswer.CutTextIs | rust/src/main.rs:2613-2637 | which characters are kept: the opening, and a stretch around the middle as near to it as the text allows |
| TopicPlan.NormalizeTopicPlanEntries | rust/src/main.rs:3013-3043 | the loop with its seen set computes the normalized plan |
| TopicPlan.NormalizedShape | rust/src/main.rs:3013-3043 | the normalized plan names existing blocks once, in order, from block zero on |
| TopicPlan.NormalizedTitle | rust/src/main.rs:3013-3043 | each block gets the title the plan gives it first, and an unnamed block zero one from its text |
| TopicPlan.NormalizedEmpty | rust/src/main.rs:3013-3043 | it is empty if and only if the plan names no block |
| TopicPlan.FilterTopicPlanEntries | rust/src/main.rs:3045-3076 | the filtering loop computes the filtered plan |
| TopicPlan.FilteredExactly | rust/src/main.rs:3045-3076 | kept are exactly the candidates with a block that are the first kept, start the gap behind the one kept before, or name the last candidate's block |
| TopicPlan.FilterKeepsFirst | rust/src/main.rs:3045-3076 | filtering keeps the first entry |
| TopicPlan.FilterSpaces | rust/src/main.rs:3045-3076 | kept starts are the gap apart unless the later entry is the last candidate |
| TopicPlan.DroppedIsTooClose | rust/src/main.rs:3060-3071 | an entry is dropped only for starting less than the gap behind a kept one, and never the last candidate |
| TopicPlan.BuildChapters | rust/src/main.rs:3078-3112 | each chapter runs to the start of the next, the last to the end of the episode |
| TopicPlan.ChapterSays | rust/src/main.rs:3078-3112 | each chapter's title from the plan or the block's text, its start and its end |
| TopicPlan.ChaptersFromTopicPlan | rust/src/main.rs:3114-3143 | chapters of the planned entries, none for a lone chapter of a long episode |
| TopicPlan.PlannedEmpty | rust/src/main.rs:3114-3143 | nothing is planned if and only if the plan names no block |
| TopicPlan.ChaptersTile | rust/src/main.rs:3078-3143 | the chapters tile the episode from the first block on with strictly increasing starts, the gap apart except before the last |
| TopicPlan.ChaptersOfEpisode | rust/src/main.rs:2438-3143 | the builder's blocks and any plan together: the chapters are empty, exactly when stated, or tile the episode |
| FeedRefresh.IndexPosts | rust/src/main.rs:6881-6893 | the two indices, later rows winning, and the least stored date |
| FeedRefresh.ExistingPostRefreshUpdate | rust/src/main.rs:6983-7013 | the field-by-field update of a stored post |
| FeedRefresh.PlanFeedRefresh | rust/src/main.rs:6865-6944 | the planning loop computes the plan |
| FeedPosts.PlannedPosts | rust/src/main.rs:6895-6944 | the posts a plan adds are exactly the items that are not stored, in order, with all their fields, the feed's artwork as fallback and no processed audio; whitelisted if and only if new posts are to be and the item is not older than every stored date |
| FeedPosts.RoundAdds | rust/src/main.rs:6865-6944 | the rows a round adds are those posts |
| FeedPosts.OldByDay | rust/src/main.rs:6915-6924 | older by day: before every stored day, or the same where the stored time is set off otherwise than by a `T` |
| FeedRefresh.MatchFinds | rust/src/main.rs:6898-6907 | whatever the row order, an entry is matched by guid, else by URL, and unmatched only if neither is stored |
| FeedRefresh.UpdateRefreshes | rust/src/main.rs:6983-7013 | applying an update makes the post what the entry wants; none is planned if and only if it already is |
| FeedRefresh.EmptyWhenSettled | rust/src/main.rs:6895-6944 | no post changes are planned if and only if each entry has a post that is as it wants it |
| FeedRefresh.FeedStore.ApplyExistingPostUpdates | src/app/writer/actions/feeds.py:24-45 | the writer's loop assigns the carried fields and skips missing posts |
| FeedRefresh.FeedStore.RefreshFeed | src/app/writer/actions/feeds.py:48-84 | the writer sets the artwork, inserts the new posts and applies the updates |
| FeedRefresh.RefreshSettles | rust/src/main.rs:6865-6944 | after a round each entry has a post that is as it wants it, where no post is matched twice |
| FeedRefresh.SharedIsChain | rust/src/main.rs:6898-6907 | a post is matched by two entries if and only if it has the URL of one and the guid of the other |
| FeedRefresh.RefreshIsKeyRound | rust/src/main.rs:6865-6944 | after a round, for any table and entries: URLs stayed, a post has the guid of the entry that matched it by URL only and else its old one, each new row is an unmatched entry's, and no unmatched entry is missing |
| FeedRefresh.RefreshKeepsKeys | src/app/models.py:194-198 | a round keeps guids and URLs unique, whatever the feed |
| FeedRefresh.OneRound | rust/src/main.rs:7015-7037 | the plan after one round never sets the artwork, adds no posts where none was matched twice, and is empty if and only if none was and the artwork stayed or every item has its own |
| FeedRefresh.RoundsNeeded | rust/src/main.rs:6865-6944 | after n >= 2 rounds, for any row orders, the plan is empty if and only if the first table holds no chain of n moved guids |
| FeedRefresh.TwoRounds | rust/src/main.rs:6865-6944 | the plan after two rounds is empty if and only if the first table holds no chain of two moved guids |
| FeedRefresh.AlwaysConverges | rust/src/main.rs:6865-6944 | after as many rounds as the feed has items, and at least two, the plan is empty |
| FeedRefresh.SharedPostNeedsMore | rust/src/main.rs:6898-6907 | a concrete feed where two entries match one post and the plan after two rounds is not empty |
| FeedRefresh.OldestIsLeast | rust/src/main.rs:6881-6885 | the oldest date is stored and no stored date is less |
| FeedRefresh.ArchiveByDay | rust/src/main.rs:6915-6924 | a new post is an archive post if and only if its day is before every stored one, or the same where the stored time is set off otherwise than by a `T` |
| LogRotation.NextKeepsInv | src/app/logger.py:80-118 | every step of every process keeps the invariant of directory, lock, streams and records |
| LogRotation.NextKeepsSound | src/app/logger.py:80-118 | every step, and the death of any process at any step, keeps the weaker invariant: names in order of age, processes and lock in order, no record twice |
| LogRotation.BackupsByAge | src/app/logger.py:110-118 | in every run, also in the middle of a rotation, a higher backup number is an older file |
| LogRotation.KeptUntilAged | src/app/logger.py:110-118 | in every run a file keeps a name while fewer than the backup count are newer, and has none once more are |
| LogRotation.RecordsKept | src/app/logger.py:105-108 | every record is in exactly one place of one file or with one process, and stays where it was written |
| LogRotation.RotatesOnlyDueLog | src/app/logger.py:110-118 | in every run, whatever dies, the log is renamed only under the lock, only the file the process chose, still the log, not empty and due, and it becomes backup 1 |
| LogRotation.LateAtMostOnce | src/app/logger.py:80-108 | whatever dies, a process writes at most one record to any file after it was rotated away |
| LogRotation.OneRotor | src/app/logger.py:68-78 | whatever dies, at most one process is between taking and releasing the lock |
| LogRotation.NeverTwice | src/app/logger.py:105-108 | whatever dies, no record is in two places, and once in a file it stays there |
| LogRotation.AgeOrderSurvivesCrashes | src/app/logger.py:110-118 | whatever dies, a higher backup number is an older file, from any directory in order of age on |
| LogRotation.RunGrows | src/app/logger.py:80-118 | whatever dies, files are only appended to, and a file that stopped being the log never is it again |
| LogHandler.HolderReleases | src/app/logger.py:68-78 | from any state the holder of the lock releases it by its own steps |
| LogHandler.LockCanBeFreed | src/app/logger.py:68-78 | in any state the others can free the lock by their own steps, as the wait for it assumes |
| LogHandler.EmittedWrites | src/app/logger.py:105-108 | whatever the others do before each step, an emit ends, as a run of the machine, with the record last in the file held |
| QuietEmit.DecidesDue | src/app/logger.py:105-118 | where the position held is the file's size, the process goes for the lock if and only if the file is due for its record |
| QuietEmit.UndisturbedEmit | src/app/logger.py:105-118 | undisturbed: a due log of any size becomes backup 1, every other backup moves one number up, and the record is alone in a new log; any other record goes to the end of the log |
| LogHandler.EveryCourseIsPlayed | src/app/logger.py:105-118 | every interleaving of an emit with the others' steps is its course in some environment, so the handler is proved for all of them |
| LogHandler.ReachedByRun | src/app/logger.py:105-118 | what the handler reaches lengthens a run of the machine, so all that holds of runs holds of it |
| LogHandler.Handler.RotatedByAnotherProcess | src/app/logger.py:80-93 | true exactly when a stream is held that is not the file at the log's name |
| LogHandler.Handler.DoRollover | src/app/logger.py:110-118 | with the others at work before every step: takes the lock, checks again, rotates or drops the stream, releases the lock, and leaves the outcome of the emit what the machine's steps make it |
| LogHandler.Handler.Emit | src/app/logger.py:105-108 | in any environment, again and again: the world is what the machine's steps and the others' moves make it, and the record is last in the file held |
| LateRecord.EmitAroundRotation | src/app/logger.py:80-118 | three records of one handler with a rotation between the second's test and its write: the second ends in the backup, the third in the new log |
| PricingCache.ResolveReply | src/app/pricing_client.py:63-79 | a reply counts if and only if it is a list of the asked number of triples of finite numbers, which are the prices of input, output and cached input in this order |
| PricingCache.MostRecentlyUsed | src/app/pricing_client.py:48-48 | the last n of the keys by use: in order of last use, and any other key was last used before all of them |
| PricingCache.MissesAre | src/app/pricing_client.py:43-50 | the helper is asked once for each model that is not fresh, and for no other |
| PricingCache.Cache.MoveToEnd | src/app/pricing_client.py:47-48 | a hit moves its key to the end and keeps the cache valid |
| PricingCache.Cache.Evict | src/app/pricing_client.py:89-90 | eviction leaves the last 256 keys and their entries |
| PricingCache.Cache.Store | src/app/pricing_client.py:86-90 | storing keeps the 256 last used keys, the new one among them |
| PricingCache.Cache.ServeFresh | src/app/pricing_client.py:41-50 | exactly the fresh models are answered, from answers less than the time to live old |
| PricingCache.Cache.StoreAll | src/app/pricing_client.py:85-91 | all answers of a reply are returned, also those evicted in the same call |
| PricingCache.Cache.LookupModelRates | src/app/pricing_client.py:33-91 | every model asked for is answered: from the cache, by the helper's answer of this call, or with zero rates that are not stored; entries, history and answers change accordingly |

## Left out

- Floating point: the source computes windows in seconds as doubles, rounds results, and truncates to milliseconds;
  the model computes with whole milliseconds, or exact reals where seconds are compared only.
- Integer widths: unsigned and signed 64-bit arithmetic never wraps in the model.
- BleepsMatchCut, MarkersMatchCut and EditedDurationExact: for ads inside the file none of which can leave the merge as
  an empty window: each is nonempty, or a minimum length is set and each starts before the end (`Mergeable`).
- Statistics: the counts, labels and speaker parts of the statistics, and a stored cut, which replaces the merged ads,
  are not part of this model.
- Files, databases, subprocesses, audio tools, command lines, tags: their results are inputs. So are parsed feed items
  and parsed plan entries; regular expressions, XML and date parsing are not part of this model.
- Unicode: tokenization, trimming, lower-casing, white space and titles made from text are function parameters.
- Stages of the audio statistics other than the bridge, such as the extension of ads at the edges of an episode, only
  add further unions of windows.
- StartGuardExact and EndGuardExact: for rows that last longer than zero; a row that does not gives a phrase no time by
  its text alone. The texts and words that break the agreement are read word by word, with no change of case.
- WordBoundary: the stored words are modelled after their JSON has been parsed; the order of estimation steps is as in
  the source, and text is compared through the tokenizer parameter.
- FeedRefresh: job creation for whitelisted posts, change timestamps and run counts of the writer have no part in the
  plan. The stored form of a new post's release date is the one planned; no comparison of a later round reads it
  except the archive rule, which is stated for the database's form.
- RecordsKept: of runs in which no process dies; a process that dies loses the record it holds, and `NeverTwice` holds
  instead. BackupsByAge and KeptUntilAged are of such runs too; where deaths leave numbers out,
  `AgeOrderSurvivesCrashes` holds.
- LogRotation: the base handler's behaviour is that of the standard library of Python 3.14, including that an empty
  file is never rotated and a missing one is due like any other; a log that is not a regular file is not modelled;
  each existence check together with the operation it guards is one step, which only the lock holder takes. A record
  has one size, where the base handler adds characters to a byte position.
- Handler: a wait for the lock is a move of the others after which it is free; that they move at all is assumed, and
  `LockCanBeFreed` shows that they can. Its place in the emit is kept in the table of processes, which the others see.
- PricingCache: calls run one after another, as the module's lock makes them. An integer too great for a float, which
  would raise out of the lookup, is not modelled.
