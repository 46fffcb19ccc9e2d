/** The scan for repeats of a known ad: greedy windows of transcript segments whose text is similar
    to the ad's. The tokenizer is a parameter. */
module RepeatAds {
  import opened Basics
  import Lcs

  const ANCHOR_THRESHOLD: real := 0.70
  const MIN_TARGET_TOKENS := 6
  const MAX_WINDOW_SLACK := 2

  type Tokens = seq<string>

  datatype Segment = Segment(seqNum: int, startTime: real, endTime: real, text: string)

  datatype Candidate = Candidate(firstSeq: int, lastSeq: int, startTime: real, endTime: real, similarity: real)

  /** A run of segment positions, [first, stop). */
  datatype Span = Span(first: nat, stop: nat)

  /** What is being looked for. */
  datatype Target = Target(tokens: Tokens, firstTokens: Tokens, maxSegments: nat, threshold: real)

  function TargetSegments(segments: seq<Segment>, first: int, last: int): seq<Segment> {
    if segments == [] then []
    else
      var init, s := segments[..|segments| - 1], segments[|segments| - 1];
      if first <= s.seqNum <= last then TargetSegments(init, first, last) + [s] else TargetSegments(init, first, last)
  }

  function TextOf(segments: seq<Segment>): string {
    JoinParts(seq(|segments|, i requires 0 <= i < |segments| => segments[i].text))
  }

  function MakeTarget(target: seq<Segment>, threshold: real, tokenize: string -> Tokens): Target
    requires target != []
  {
    Target(tokenize(TextOf(target)), tokenize(target[0].text), |target| + MAX_WINDOW_SLACK, threshold)
  }

  /** The integers lo..=hi. */
  function Range(lo: int, hi: int): set<int>
    decreases hi - lo
  {
    if hi < lo then {} else Range(lo, hi - 1) + {hi}
  }

  lemma {:induction false} RangeHas(lo: int, hi: int, x: int)
    ensures x in Range(lo, hi) <==> lo <= x <= hi
    decreases hi - lo
  {
    if lo <= hi {
      RangeHas(lo, hi - 1, x);
    }
  }

  function InRanges(ranges: seq<(int, int)>): set<int> {
    if ranges == [] then {}
    else
      var r := ranges[|ranges| - 1];
      InRanges(ranges[..|ranges| - 1]) + Range(r.0, r.1)
  }

  /** Sequence numbers that may not be part of a candidate from the start. */
  function Excluded(first: int, last: int, ranges: seq<(int, int)>): set<int> {
    Range(first, last) + InRanges(ranges)
  }

  // ---------- one window ----------

  function WindowTokens(segments: seq<Segment>, i: nat, j: nat, tokenize: string -> Tokens): Tokens
    requires i <= j <= |segments|
    decreases j
  {
    if i == j then [] else WindowTokens(segments, i, j - 1, tokenize) + tokenize(segments[j - 1].text)
  }

  /** Where the window that starts at i, already grown to j, stops growing: at the end, at its
      greatest size, before an excluded segment, or once it has as many tokens as the target. */
  function WindowStop(segments: seq<Segment>, i: nat, j: nat, excluded: set<int>, target: Target,
                      tokenize: string -> Tokens): (stop: nat)
    requires i <= j <= |segments|
    ensures j <= stop <= |segments|
    ensures j - i <= target.maxSegments ==> stop - i <= target.maxSegments
    ensures forall k :: j <= k < stop ==> segments[k].seqNum !in excluded
    decreases |segments| - j
  {
    if j >= |segments| || j - i >= target.maxSegments || segments[j].seqNum in excluded then j
    else if |WindowTokens(segments, i, j + 1, tokenize)| >= |target.tokens| then j + 1
    else WindowStop(segments, i, j + 1, excluded, target, tokenize)
  }

  predicate Anchored(segment: Segment, target: Target, tokenize: string -> Tokens) {
    Lcs.Similarity(tokenize(segment.text), target.firstTokens) >= ANCHOR_THRESHOLD
  }

  function SpanSimilarity(segments: seq<Segment>, span: Span, target: Target, tokenize: string -> Tokens): real
    requires span.first <= span.stop <= |segments|
  {
    Lcs.Similarity(WindowTokens(segments, span.first, span.stop, tokenize), target.tokens)
  }

  /** The window at i passes the anchor test and the window test. */
  predicate Matches(segments: seq<Segment>, i: nat, excluded: set<int>, target: Target, tokenize: string -> Tokens)
    requires i < |segments|
  {
    && Anchored(segments[i], target, tokenize)
    && SpanSimilarity(segments, Span(i, WindowStop(segments, i, i, excluded, target, tokenize)), target, tokenize)
         >= target.threshold
  }

  method GrowWindow(segments: seq<Segment>, i: nat, excluded: set<int>, target: Target, tokenize: string -> Tokens)
    returns (stop: nat, tokens: Tokens)
    requires i < |segments|
    ensures stop == WindowStop(segments, i, i, excluded, target, tokenize)
    ensures tokens == WindowTokens(segments, i, stop, tokenize)
  {
    stop, tokens := i, [];
    while stop < |segments| && stop - i < target.maxSegments
      invariant i <= stop <= |segments|
      invariant tokens == WindowTokens(segments, i, stop, tokenize)
      invariant WindowStop(segments, i, stop, excluded, target, tokenize)
             == WindowStop(segments, i, i, excluded, target, tokenize)
    {
      if segments[stop].seqNum in excluded {
        break;
      }
      tokens := tokens + tokenize(segments[stop].text);
      stop := stop + 1;
      if |tokens| >= |target.tokens| {
        break;
      }
    }
  }

  // ---------- the greedy scan ----------

  function SeqNums(segments: seq<Segment>, span: Span): set<int>
    requires span.first <= span.stop <= |segments|
  {
    set k | span.first <= k < span.stop :: segments[k].seqNum
  }

  ghost predicate InBounds(segments: seq<Segment>, spans: seq<Span>) {
    forall k :: 0 <= k < |spans| ==> spans[k].first < spans[k].stop <= |segments|
  }

  /** Excluded from the start, or part of one of the first n spans. */
  function Taken(segments: seq<Segment>, spans: seq<Span>, n: nat, excluded: set<int>): set<int>
    requires InBounds(segments, spans) && n <= |spans|
  {
    if n == 0 then excluded
    else Taken(segments, spans, n - 1, excluded) + SeqNums(segments, spans[n - 1])
  }

  /** Where the scan resumes after the first n spans. */
  function StopAt(spans: seq<Span>, n: nat): nat
    requires n <= |spans|
  {
    if n == 0 then 0 else spans[n - 1].stop
  }

  /** Segment i is taken, or its window is not a match. */
  ghost predicate Rejected(segments: seq<Segment>, i: nat, taken: set<int>, target: Target, tokenize: string -> Tokens)
    requires i < |segments|
  {
    segments[i].seqNum in taken || !Matches(segments, i, taken, target, tokenize)
  }

  /** Span `next` is the first match at or after `from`, stretched to its window. */
  ghost predicate FirstMatch(segments: seq<Segment>, from: nat, next: Span, taken: set<int>, target: Target,
                             tokenize: string -> Tokens)
  {
    && from <= next.first < |segments|
    && segments[next.first].seqNum !in taken
    && Matches(segments, next.first, taken, target, tokenize)
    && next.stop == WindowStop(segments, next.first, next.first, taken, target, tokenize)
    && forall i :: from <= i < next.first ==> Rejected(segments, i, taken, target, tokenize)
  }

  /** Span k is the first match after the one before it. */
  ghost predicate GreedyAt(segments: seq<Segment>, spans: seq<Span>, k: nat, excluded: set<int>, target: Target,
                           tokenize: string -> Tokens)
    requires InBounds(segments, spans) && k < |spans|
  {
    FirstMatch(segments, StopAt(spans, k), spans[k], Taken(segments, spans, k, excluded), target, tokenize)
  }

  /** Every span is the first match after the one before it. */
  ghost predicate Greedy(segments: seq<Segment>, spans: seq<Span>, excluded: set<int>, target: Target,
                         tokenize: string -> Tokens)
    requires InBounds(segments, spans)
  {
    forall k :: 0 <= k < |spans| ==> GreedyAt(segments, spans, k, excluded, target, tokenize)
  }

  /** No match is left between position `from` and position `to`. */
  ghost predicate NoneLeft(segments: seq<Segment>, from: nat, to: nat, taken: set<int>, target: Target,
                           tokenize: string -> Tokens)
    requires to <= |segments|
  {
    forall i :: from <= i < to ==> Rejected(segments, i, taken, target, tokenize)
  }

  function CandidateOf(segments: seq<Segment>, span: Span, target: Target, tokenize: string -> Tokens): Candidate
    requires span.first < span.stop <= |segments|
  {
    Candidate(segments[span.first].seqNum, segments[span.stop - 1].seqNum,
              segments[span.first].startTime, segments[span.stop - 1].endTime,
              SpanSimilarity(segments, span, target, tokenize))
  }

  ghost predicate Reports(segments: seq<Segment>, spans: seq<Span>, candidates: seq<Candidate>, target: Target,
                          tokenize: string -> Tokens)
    requires InBounds(segments, spans)
  {
    && |candidates| == |spans|
    && forall k :: 0 <= k < |spans| ==> candidates[k] == CandidateOf(segments, spans[k], target, tokenize)
  }

  predicate Searchable(target: seq<Segment>, tokenize: string -> Tokens) {
    target != [] && |tokenize(TextOf(target))| >= MIN_TARGET_TOKENS
  }

  lemma {:induction false} WindowNotEmpty(segments: seq<Segment>, i: nat, excluded: set<int>, target: Target,
                                          tokenize: string -> Tokens)
    requires i < |segments| && segments[i].seqNum !in excluded && 0 < target.maxSegments
    ensures i < WindowStop(segments, i, i, excluded, target, tokenize)
  {
  }

  lemma {:induction false} TakenAppend(segments: seq<Segment>, spans: seq<Span>, span: Span, n: nat, excluded: set<int>)
    requires InBounds(segments, spans) && span.first < span.stop <= |segments| && n <= |spans|
    ensures Taken(segments, spans + [span], n, excluded) == Taken(segments, spans, n, excluded)
  {
    if n > 0 {
      TakenAppend(segments, spans, span, n - 1, excluded);
    }
  }

  lemma {:induction false} GreedyAppend(segments: seq<Segment>, spans: seq<Span>, span: Span, excluded: set<int>,
                                        target: Target, tokenize: string -> Tokens)
    requires InBounds(segments, spans) && span.first < span.stop <= |segments|
    requires Greedy(segments, spans, excluded, target, tokenize)
    requires FirstMatch(segments, StopAt(spans, |spans|), span, Taken(segments, spans, |spans|, excluded), target,
                        tokenize)
    ensures InBounds(segments, spans + [span]) && Greedy(segments, spans + [span], excluded, target, tokenize)
    ensures Taken(segments, spans + [span], |spans| + 1, excluded)
         == Taken(segments, spans, |spans|, excluded) + SeqNums(segments, span)
    ensures StopAt(spans + [span], |spans| + 1) == span.stop
  {
    var all := spans + [span];
    forall k | 0 <= k < |all|
      ensures GreedyAt(segments, all, k, excluded, target, tokenize)
    {
      TakenAppend(segments, spans, span, k, excluded);
      assert StopAt(all, k) == StopAt(spans, k);
      assert k < |spans| ==> GreedyAt(segments, spans, k, excluded, target, tokenize);
    }
    TakenAppend(segments, spans, span, |spans|, excluded);
  }

  /** Judges segment i: whether its window is a candidate, and which. */
  method TryWindow(segments: seq<Segment>, i: nat, excluded: set<int>, target: Target, tokenize: string -> Tokens)
    returns (found: bool, candidate: Candidate, stop: nat)
    requires i < |segments| && 0 < target.maxSegments
    ensures found <==> !Rejected(segments, i, excluded, target, tokenize)
    ensures found ==> i < stop == WindowStop(segments, i, i, excluded, target, tokenize)
    ensures found ==> candidate == CandidateOf(segments, Span(i, stop), target, tokenize)
  {
    var seg := segments[i];
    found, candidate, stop := false, Candidate(seg.seqNum, seg.seqNum, seg.startTime, seg.endTime, 0.0), i;
    if seg.seqNum in excluded {
      return;
    }
    var anchor := Lcs.RepeatAdSimilarity(tokenize(seg.text), target.firstTokens);
    if anchor < ANCHOR_THRESHOLD {
      return;
    }
    var tokens;
    stop, tokens := GrowWindow(segments, i, excluded, target, tokenize);
    WindowNotEmpty(segments, i, excluded, target, tokenize);
    var similarity := Lcs.RepeatAdSimilarity(tokens, target.tokens);
    if stop > i && similarity >= target.threshold {
      found := true;
      candidate := Candidate(seg.seqNum, segments[stop - 1].seqNum, seg.startTime, segments[stop - 1].endTime,
                             similarity);
    }
  }

  lemma {:induction false} ReportsAppend(segments: seq<Segment>, spans: seq<Span>, candidates: seq<Candidate>,
                                         span: Span, target: Target, tokenize: string -> Tokens)
    requires InBounds(segments, spans) && span.first < span.stop <= |segments|
    requires Reports(segments, spans, candidates, target, tokenize)
    ensures InBounds(segments, spans + [span])
    ensures Reports(segments, spans + [span], candidates + [CandidateOf(segments, span, target, tokenize)], target,
                    tokenize)
  {
  }

  /** Where the scan stands at position i. */
  ghost predicate Scanned(segments: seq<Segment>, spans: seq<Span>, candidates: seq<Candidate>, i: nat,
                          excluded: set<int>, initial: set<int>, target: Target, tokenize: string -> Tokens)
  {
    && InBounds(segments, spans) && StopAt(spans, |spans|) <= i <= |segments|
    && excluded == Taken(segments, spans, |spans|, initial)
    && Reports(segments, spans, candidates, target, tokenize)
    && Greedy(segments, spans, initial, target, tokenize)
    && NoneLeft(segments, StopAt(spans, |spans|), i, excluded, target, tokenize)
  }

  lemma {:induction false} ScannedTake(segments: seq<Segment>, spans: seq<Span>, candidates: seq<Candidate>, i: nat,
                                       j: nat, excluded: set<int>, initial: set<int>, target: Target,
                                       tokenize: string -> Tokens)
    requires Scanned(segments, spans, candidates, i, excluded, initial, target, tokenize)
    requires i < |segments| && !Rejected(segments, i, excluded, target, tokenize)
    requires i < j == WindowStop(segments, i, i, excluded, target, tokenize)
    ensures Scanned(segments, spans + [Span(i, j)],
                    candidates + [CandidateOf(segments, Span(i, j), target, tokenize)], j,
                    excluded + SeqNums(segments, Span(i, j)), initial, target, tokenize)
  {
    GreedyAppend(segments, spans, Span(i, j), initial, target, tokenize);
    ReportsAppend(segments, spans, candidates, Span(i, j), target, tokenize);
  }

  /** The candidates report exactly the spans of a greedy scan that left nothing behind. */
  ghost predicate CompleteScan(segments: seq<Segment>, spans: seq<Span>, candidates: seq<Candidate>, initial: set<int>,
                               target: Target, tokenize: string -> Tokens)
  {
    && InBounds(segments, spans)
    && Scanned(segments, spans, candidates, |segments|, Taken(segments, spans, |spans|, initial), initial, target,
               tokenize)
  }

  /** The scan itself, once there is a target worth searching for. */
  method Scan(segments: seq<Segment>, initial: set<int>, target: Target, tokenize: string -> Tokens)
    returns (candidates: seq<Candidate>)
    requires 0 < target.maxSegments
    ensures exists spans :: CompleteScan(segments, spans, candidates, initial, target, tokenize)
  {
    candidates := [];
    ghost var spans: seq<Span> := [];
    var excluded := initial;
    var i := 0;
    while i < |segments|
      invariant 0 <= i <= |segments|
      invariant Scanned(segments, spans, candidates, i, excluded, initial, target, tokenize)
      decreases |segments| - i
    {
      var found, candidate, j := TryWindow(segments, i, excluded, target, tokenize);
      if found {
        ScannedTake(segments, spans, candidates, i, j, excluded, initial, target, tokenize);
        candidates, spans := candidates + [candidate], spans + [Span(i, j)];
        excluded := excluded + SeqNums(segments, Span(i, j));
        i := j;
      } else {
        i := i + 1;
      }
    }
    assert CompleteScan(segments, spans, candidates, initial, target, tokenize);
  }

  // ---------- what the scan finds ----------

  /** The candidates are determined by the segments, the target and the exclusions. */
  lemma {:induction false} CandidatesUnique(segments: seq<Segment>, a: seq<Span>, x: seq<Candidate>, b: seq<Span>,
                                            y: seq<Candidate>, initial: set<int>, target: Target,
                                            tokenize: string -> Tokens)
    requires CompleteScan(segments, a, x, initial, target, tokenize)
             && CompleteScan(segments, b, y, initial, target, tokenize)
    ensures x == y
  {
    if |a| <= |b| {
      ScanUnique(segments, a, b, initial, target, tokenize);
    } else {
      ScanUnique(segments, b, a, initial, target, tokenize);
    }
  }

  lemma {:induction false} FirstMatchUnique(segments: seq<Segment>, from: nat, x: Span, y: Span, taken: set<int>,
                                            target: Target, tokenize: string -> Tokens)
    requires FirstMatch(segments, from, x, taken, target, tokenize)
    requires FirstMatch(segments, from, y, taken, target, tokenize)
    ensures x == y
  {
    assert !Rejected(segments, x.first, taken, target, tokenize);
    assert !Rejected(segments, y.first, taken, target, tokenize);
  }

  lemma {:induction false} TakenSame(segments: seq<Segment>, a: seq<Span>, b: seq<Span>, n: nat, excluded: set<int>)
    requires InBounds(segments, a) && InBounds(segments, b) && n <= |a| && n <= |b|
    requires forall m :: 0 <= m < n ==> a[m] == b[m]
    ensures Taken(segments, a, n, excluded) == Taken(segments, b, n, excluded)
    ensures StopAt(a, n) == StopAt(b, n)
  {
    if n > 0 {
      TakenSame(segments, a, b, n - 1, excluded);
    }
  }

  /** Two greedy scans agree as far as both go. */
  lemma {:induction false} GreedyPrefix(segments: seq<Segment>, a: seq<Span>, b: seq<Span>, n: nat, excluded: set<int>,
                                        target: Target, tokenize: string -> Tokens)
    requires InBounds(segments, a) && InBounds(segments, b) && n <= |a| && n <= |b|
    requires Greedy(segments, a, excluded, target, tokenize) && Greedy(segments, b, excluded, target, tokenize)
    ensures forall m :: 0 <= m < n ==> a[m] == b[m]
  {
    if n > 0 {
      GreedyPrefix(segments, a, b, n - 1, excluded, target, tokenize);
      TakenSame(segments, a, b, n - 1, excluded);
      assert GreedyAt(segments, a, n - 1, excluded, target, tokenize);
      assert GreedyAt(segments, b, n - 1, excluded, target, tokenize);
      FirstMatchUnique(segments, StopAt(a, n - 1), a[n - 1], b[n - 1], Taken(segments, a, n - 1, excluded), target,
                       tokenize);
    }
  }

  lemma {:induction false} NoFirstMatch(segments: seq<Segment>, from: nat, taken: set<int>, target: Target,
                                        tokenize: string -> Tokens)
    requires NoneLeft(segments, from, |segments|, taken, target, tokenize)
    ensures forall next :: !FirstMatch(segments, from, next, taken, target, tokenize)
  {
    forall next
      ensures !FirstMatch(segments, from, next, taken, target, tokenize)
    {
      assert from <= next.first < |segments| ==> Rejected(segments, next.first, taken, target, tokenize);
    }
  }

  /** The greedy scan is deterministic: its specification has one solution. */
  lemma {:induction false} ScanUnique(segments: seq<Segment>, a: seq<Span>, b: seq<Span>, excluded: set<int>,
                                      target: Target, tokenize: string -> Tokens)
    requires InBounds(segments, a) && InBounds(segments, b) && |a| <= |b|
    requires Greedy(segments, a, excluded, target, tokenize) && Greedy(segments, b, excluded, target, tokenize)
    requires NoneLeft(segments, StopAt(a, |a|), |segments|, Taken(segments, a, |a|, excluded), target, tokenize)
    ensures a == b
  {
    GreedyPrefix(segments, a, b, |a|, excluded, target, tokenize);
    TakenSame(segments, a, b, |a|, excluded);
    NoFirstMatch(segments, StopAt(a, |a|), Taken(segments, a, |a|, excluded), target, tokenize);
    var another := |a| < |b| && GreedyAt(segments, b, |a|, excluded, target, tokenize);
  }

  ghost predicate Increasing(segments: seq<Segment>) {
    forall i, j :: 0 <= i < j < |segments| ==> segments[i].seqNum < segments[j].seqNum
  }

  lemma {:induction false} TakenAhead(segments: seq<Segment>, spans: seq<Span>, n: nat, excluded: set<int>, i: nat)
    requires InBounds(segments, spans) && Increasing(segments) && i < |segments| && n <= |spans|
    requires forall k :: 0 <= k < n ==> spans[k].stop <= i
    ensures segments[i].seqNum in Taken(segments, spans, n, excluded) <==> segments[i].seqNum in excluded
  {
    if n > 0 {
      TakenAhead(segments, spans, n - 1, excluded, i);
      assert segments[i].seqNum !in SeqNums(segments, spans[n - 1]);
    }
  }

  /** Spans come one after the other. */
  lemma {:induction false} StopsBefore(segments: seq<Segment>, spans: seq<Span>, k: nat, n: nat, excluded: set<int>,
                                       target: Target, tokenize: string -> Tokens)
    requires InBounds(segments, spans) && Greedy(segments, spans, excluded, target, tokenize)
    requires k < n <= |spans|
    ensures spans[k].stop <= StopAt(spans, n)
    ensures n < |spans| ==> spans[k].stop <= spans[n].first
    decreases n - k
  {
    if k < n - 1 {
      StopsBefore(segments, spans, k, n - 1, excluded, target, tokenize);
    }
    if n < |spans| {
      assert GreedyAt(segments, spans, n, excluded, target, tokenize);
    }
  }

  lemma {:induction false} SameStop(segments: seq<Segment>, i: nat, j: nat, taken: set<int>, excluded: set<int>,
                                    target: Target, tokenize: string -> Tokens)
    requires i <= j <= |segments|
    requires forall k :: j <= k < |segments| ==> (segments[k].seqNum in taken <==> segments[k].seqNum in excluded)
    ensures WindowStop(segments, i, j, taken, target, tokenize)
            == WindowStop(segments, i, j, excluded, target, tokenize)
    decreases |segments| - j
  {
    if j < |segments| {
      SameStop(segments, i, j + 1, taken, excluded, target, tokenize);
    }
  }

  /** With strictly increasing sequence numbers, what earlier spans took never matters again: the
      scan judges each segment by the original exclusions alone. */
  lemma {:induction false} JudgedByOriginal(segments: seq<Segment>, spans: seq<Span>, n: nat, excluded: set<int>,
                                            i: nat, target: Target, tokenize: string -> Tokens)
    requires InBounds(segments, spans) && Increasing(segments) && i < |segments| && n <= |spans|
    requires Greedy(segments, spans, excluded, target, tokenize) && StopAt(spans, n) <= i
    ensures var taken := Taken(segments, spans, n, excluded);
            && WindowStop(segments, i, i, taken, target, tokenize)
               == WindowStop(segments, i, i, excluded, target, tokenize)
            && (Rejected(segments, i, taken, target, tokenize) <==> Rejected(segments, i, excluded, target, tokenize))
  {
    var taken := Taken(segments, spans, n, excluded);
    forall k | 0 <= k < n
      ensures spans[k].stop <= i
    {
      StopsBefore(segments, spans, k, n, excluded, target, tokenize);
    }
    forall k | i <= k < |segments|
      ensures segments[k].seqNum in taken <==> segments[k].seqNum in excluded
    {
      TakenAhead(segments, spans, n, excluded, k);
    }
    SameStop(segments, i, i, taken, excluded, target, tokenize);
  }

  ghost predicate InSpan(spans: seq<Span>, i: nat) {
    exists k :: 0 <= k < |spans| && spans[k].first <= i < spans[k].stop
  }

  /** A candidate of a scan over strictly increasing sequence numbers passes both tests with the
      original exclusions, spans at most the allowed number of segments, and contains none excluded. */
  lemma {:induction false} CandidateSound(segments: seq<Segment>, spans: seq<Span>, excluded: set<int>, target: Target,
                       tokenize: string -> Tokens, k: nat)
    requires InBounds(segments, spans) && Increasing(segments) && k < |spans|
    requires Greedy(segments, spans, excluded, target, tokenize)
    ensures spans[k].stop == WindowStop(segments, spans[k].first, spans[k].first, excluded, target, tokenize)
    ensures !Rejected(segments, spans[k].first, excluded, target, tokenize)
    ensures CandidateOf(segments, spans[k], target, tokenize).similarity >= target.threshold
    ensures spans[k].stop - spans[k].first <= target.maxSegments
    ensures forall i :: spans[k].first <= i < spans[k].stop ==> segments[i].seqNum !in excluded
  {
    assert GreedyAt(segments, spans, k, excluded, target, tokenize);
    JudgedByOriginal(segments, spans, k, excluded, spans[k].first, target, tokenize);
  }

  /** No segment of the target or of an excluded range is ever part of a candidate. */
  lemma {:induction false} CandidateAvoids(segments: seq<Segment>, spans: seq<Span>, first: int, last: int,
                                           ranges: seq<(int, int)>, target: Target, tokenize: string -> Tokens, k: nat,
                                           i: nat)
    requires InBounds(segments, spans) && Increasing(segments) && k < |spans|
    requires Greedy(segments, spans, Excluded(first, last, ranges), target, tokenize)
    requires spans[k].first <= i < spans[k].stop
    ensures !(first <= segments[i].seqNum <= last)
    ensures forall r :: 0 <= r < |ranges| ==> !(ranges[r].0 <= segments[i].seqNum <= ranges[r].1)
  {
    var x := segments[i].seqNum;
    CandidateSound(segments, spans, Excluded(first, last, ranges), target, tokenize, k);
    RangeHas(first, last, x);
    forall r | 0 <= r < |ranges|
      ensures !(ranges[r].0 <= x <= ranges[r].1)
    {
      InRangesHas(ranges, r, x);
    }
  }

  lemma {:induction false} InRangesHas(ranges: seq<(int, int)>, r: nat, x: int)
    requires r < |ranges|
    ensures ranges[r].0 <= x <= ranges[r].1 ==> x in InRanges(ranges)
  {
    RangeHas(ranges[|ranges| - 1].0, ranges[|ranges| - 1].1, x);
    if r < |ranges| - 1 {
      InRangesHas(ranges[..|ranges| - 1], r, x);
    }
  }

  /** Candidates come in order and do not share sequence numbers. */
  lemma {:induction false} CandidatesDisjoint(segments: seq<Segment>, spans: seq<Span>, excluded: set<int>,
                                              target: Target, tokenize: string -> Tokens, k: nat, m: nat)
    requires InBounds(segments, spans) && Increasing(segments) && k < m < |spans|
    requires Greedy(segments, spans, excluded, target, tokenize)
    ensures CandidateOf(segments, spans[k], target, tokenize).firstSeq
         <= CandidateOf(segments, spans[k], target, tokenize).lastSeq
         <  CandidateOf(segments, spans[m], target, tokenize).firstSeq
         <= CandidateOf(segments, spans[m], target, tokenize).lastSeq
  {
    StopsBefore(segments, spans, k, m, excluded, target, tokenize);
    var a, b := spans[k], spans[m];
    assert a.first < a.stop - 1 ==> segments[a.first].seqNum < segments[a.stop - 1].seqNum;
    assert segments[a.stop - 1].seqNum < segments[b.first].seqNum;
    assert b.first < b.stop - 1 ==> segments[b.first].seqNum < segments[b.stop - 1].seqNum;
  }

  /** A segment outside every candidate was excluded from the start or fails a test. */
  lemma {:induction false} OthersRejected(segments: seq<Segment>, spans: seq<Span>, excluded: set<int>, target: Target,
                       tokenize: string -> Tokens, i: nat)
    requires InBounds(segments, spans) && Increasing(segments) && i < |segments| && !InSpan(spans, i)
    requires Greedy(segments, spans, excluded, target, tokenize)
    requires NoneLeft(segments, StopAt(spans, |spans|), |segments|, Taken(segments, spans, |spans|, excluded), target,
                      tokenize)
    ensures Rejected(segments, i, excluded, target, tokenize)
  {
    var k := FirstSpanAfter(spans, i);
    assert StopAt(spans, k) <= i;
    JudgedByOriginal(segments, spans, k, excluded, i, target, tokenize);
    if k < |spans| {
      assert GreedyAt(segments, spans, k, excluded, target, tokenize);
    }
  }

  /** The first span that starts after position i, which no span contains. */
  lemma {:induction false} FirstSpanAfter(spans: seq<Span>, i: nat) returns (k: nat)
    requires !InSpan(spans, i)
    ensures k <= |spans| && StopAt(spans, k) <= i
    ensures k < |spans| ==> i < spans[k].first
  {
    k := 0;
    while k < |spans| && spans[k].first <= i
      invariant k <= |spans| && StopAt(spans, k) <= i
    {
      assert !(spans[k].first <= i < spans[k].stop);
      k := k + 1;
    }
  }

  // ---------- the answer, without the scan ----------

  predicate IsExcluded(n: int, first: int, last: int, ranges: seq<(int, int)>) {
    first <= n <= last || exists r :: 0 <= r < |ranges| && ranges[r].0 <= n <= ranges[r].1
  }

  lemma {:induction false} ExcludedHas(first: int, last: int, ranges: seq<(int, int)>, n: int)
    ensures n in Excluded(first, last, ranges) <==> IsExcluded(n, first, last, ranges)
  {
    RangeHas(first, last, n);
    InRangesExactly(ranges, n);
  }

  lemma {:induction false} InRangesExactly(ranges: seq<(int, int)>, n: int)
    ensures n in InRanges(ranges) <==> exists r :: 0 <= r < |ranges| && ranges[r].0 <= n <= ranges[r].1
  {
    if ranges != [] {
      var k := |ranges| - 1;
      InRangesExactly(ranges[..k], n);
      RangeHas(ranges[k].0, ranges[k].1, n);
      if r :| 0 <= r < |ranges| && ranges[r].0 <= n <= ranges[r].1 {
        assert r < k ==> ranges[..k][r] == ranges[r];
      }
    }
  }

  /** The positions of the segments numbered from `first` to `last`. */
  ghost predicate IsTarget(segments: seq<Segment>, at: seq<nat>, first: int, last: int) {
    && (forall k :: 0 <= k < |at| ==> at[k] < |segments| && first <= segments[at[k]].seqNum <= last)
    && (forall k, m :: 0 <= k < m < |at| ==> at[k] < at[m])
    && (forall i :: 0 <= i < |segments| && first <= segments[i].seqNum <= last ==> i in at)
  }

  /** The segments at the positions. */
  ghost predicate AreAt(some: seq<Segment>, segments: seq<Segment>, at: seq<nat>) {
    |some| == |at| && forall k :: 0 <= k < |at| ==> at[k] < |segments| && some[k] == segments[at[k]]
  }

  lemma {:induction false} TargetAt(segments: seq<Segment>, first: int, last: int) returns (at: seq<nat>)
    ensures IsTarget(segments, at, first, last) && AreAt(TargetSegments(segments, first, last), segments, at)
  {
    if segments == [] {
      at := [];
    } else {
      hide IsTarget, AreAt;
      var n := |segments| - 1;
      var init, seg := segments[..n], segments[n];
      at := TargetAt(init, first, last);
      assert segments == init + [seg];
      TargetLast(init, seg, at, first, last, TargetSegments(init, first, last));
      if first <= seg.seqNum <= last {
        at := at + [n];
      }
    }
  }

  /** One more segment is a target, or none. */
  lemma {:induction false} TargetLast(init: seq<Segment>, seg: Segment, at: seq<nat>, first: int, last: int,
                                      some: seq<Segment>)
    requires IsTarget(init, at, first, last) && AreAt(some, init, at)
    ensures first <= seg.seqNum <= last ==>
              IsTarget(init + [seg], at + [|init|], first, last) && AreAt(some + [seg], init + [seg], at + [|init|])
    ensures !(first <= seg.seqNum <= last) ==>
              IsTarget(init + [seg], at, first, last) && AreAt(some, init + [seg], at)
  {
    var all, more := init + [seg], at + [|init|];
    assert forall i :: 0 <= i < |init| ==> all[i] == init[i];
    assert forall i :: i in at ==> i in more;
    assert more[|at|] == |init| && all[|init|] == seg;
  }

  /** The target's texts, joined by single spaces. */
  function TargetText(segments: seq<Segment>, at: seq<nat>): string
    requires forall k :: 0 <= k < |at| ==> at[k] < |segments|
  {
    JoinParts(seq(|at|, k requires 0 <= k < |at| => segments[at[k]].text))
  }

  /** A window takes segments that are not excluded, up to `size` of them, until it has `tokens` tokens. */
  ghost predicate IsWindow(segments: seq<Segment>, span: Span, first: int, last: int, ranges: seq<(int, int)>,
                           size: nat, tokens: nat, tokenize: string -> Tokens)
  {
    && span.first < span.stop <= |segments| && span.stop - span.first <= size
    && (forall k :: span.first <= k < span.stop ==> !IsExcluded(segments[k].seqNum, first, last, ranges))
    && (forall j :: span.first < j < span.stop ==> |WindowTokens(segments, span.first, j, tokenize)| < tokens)
    && (|| span.stop == |segments| || span.stop - span.first == size
        || IsExcluded(segments[span.stop].seqNum, first, last, ranges)
        || |WindowTokens(segments, span.first, span.stop, tokenize)| >= tokens)
  }

  /** Its first segment is like the target's first, and all of it like all of the target. */
  ghost predicate IsLike(segments: seq<Segment>, span: Span, at: seq<nat>, threshold: real, tokenize: string -> Tokens)
    requires span.first < span.stop <= |segments|
    requires at != [] && forall k :: 0 <= k < |at| ==> at[k] < |segments|
  {
    && Lcs.Similarity(tokenize(segments[span.first].text), tokenize(segments[at[0]].text)) >= 0.70
    && Lcs.Similarity(WindowTokens(segments, span.first, span.stop, tokenize), tokenize(TargetText(segments, at)))
       >= threshold
  }

  ghost predicate IsRepeat(segments: seq<Segment>, span: Span, at: seq<nat>, first: int, last: int,
                           ranges: seq<(int, int)>, threshold: real, tokenize: string -> Tokens)
    requires at != [] && forall k :: 0 <= k < |at| ==> at[k] < |segments|
  {
    && IsWindow(segments, span, first, last, ranges, |at| + 2, |tokenize(TargetText(segments, at))|, tokenize)
    && IsLike(segments, span, at, threshold, tokenize)
  }

  /** The candidate reports the span, with the likeness of its own tokens to the target's. */
  ghost predicate ReportsSpan(candidate: Candidate, segments: seq<Segment>, span: Span, at: seq<nat>,
                              tokenize: string -> Tokens)
    requires forall k :: 0 <= k < |at| ==> at[k] < |segments|
  {
    && span.first < span.stop <= |segments|
    && candidate.firstSeq == segments[span.first].seqNum && candidate.lastSeq == segments[span.stop - 1].seqNum
    && candidate.startTime == segments[span.first].startTime && candidate.endTime == segments[span.stop - 1].endTime
    && candidate.similarity == Lcs.Similarity(WindowTokens(segments, span.first, span.stop, tokenize),
                                              tokenize(TargetText(segments, at)))
  }

  /** The candidates are repeats, in order and apart, and outside them no segment starts one. */
  ghost predicate AreRepeats(candidates: seq<Candidate>, spans: seq<Span>, segments: seq<Segment>, at: seq<nat>,
                             first: int, last: int, ranges: seq<(int, int)>, threshold: real,
                             tokenize: string -> Tokens)
    requires at != [] && forall k :: 0 <= k < |at| ==> at[k] < |segments|
  {
    && |candidates| == |spans|
    && (forall k :: 0 <= k < |spans| ==>
          && IsRepeat(segments, spans[k], at, first, last, ranges, threshold, tokenize)
          && ReportsSpan(candidates[k], segments, spans[k], at, tokenize))
    && (forall k, m :: 0 <= k < m < |spans| ==> spans[k].stop <= spans[m].first)
    && (forall span: Span :: IsRepeat(segments, span, at, first, last, ranges, threshold, tokenize) ==>
          InSpan(spans, span.first))
  }

  /** The answer: no target, or one of fewer than six tokens, has no candidates; any other has its repeats. */
  ghost predicate IsAnswer(candidates: seq<Candidate>, spans: seq<Span>, segments: seq<Segment>, at: seq<nat>,
                           first: int, last: int, ranges: seq<(int, int)>, threshold: real,
                           tokenize: string -> Tokens)
  {
    && IsTarget(segments, at, first, last)
    && if at == [] || |tokenize(TargetText(segments, at))| < 6 then candidates == []
       else AreRepeats(candidates, spans, segments, at, first, last, ranges, threshold, tokenize)
  }

  // ---------- the scan gives the answer ----------

  /** The window function takes such windows. */
  lemma {:induction false} StopIsWindow(segments: seq<Segment>, i: nat, j: nat, first: int, last: int,
                                        ranges: seq<(int, int)>, target: Target, tokenize: string -> Tokens)
    requires i <= j <= |segments| && i < |segments| && 0 < target.maxSegments && j - i <= target.maxSegments
    requires !IsExcluded(segments[i].seqNum, first, last, ranges)
    requires forall k :: i <= k < j ==> !IsExcluded(segments[k].seqNum, first, last, ranges)
    requires forall m :: i < m <= j ==> |WindowTokens(segments, i, m, tokenize)| < |target.tokens|
    ensures var stop := WindowStop(segments, i, j, Excluded(first, last, ranges), target, tokenize);
            IsWindow(segments, Span(i, stop), first, last, ranges, target.maxSegments, |target.tokens|, tokenize)
    decreases |segments| - j
  {
    hide Excluded, IsExcluded, WindowTokens;
    if j < |segments| {
      ExcludedHas(first, last, ranges, segments[j].seqNum);
      if j - i < target.maxSegments && !IsExcluded(segments[j].seqNum, first, last, ranges)
         && |WindowTokens(segments, i, j + 1, tokenize)| < |target.tokens| {
        StopIsWindow(segments, i, j + 1, first, last, ranges, target, tokenize);
      }
    }
  }

  /** There is one window from a position. */
  lemma {:induction false} OneWindow(segments: seq<Segment>, a: Span, b: Span, first: int, last: int,
                                     ranges: seq<(int, int)>, size: nat, tokens: nat, tokenize: string -> Tokens)
    requires a.first == b.first
    requires IsWindow(segments, a, first, last, ranges, size, tokens, tokenize)
    requires IsWindow(segments, b, first, last, ranges, size, tokens, tokenize)
    ensures a == b
  {
    hide IsExcluded, WindowTokens;
  }

  /** Passing the scan's tests is being a repeat. */
  lemma {:induction false} RejectedIsNoRepeat(segments: seq<Segment>, i: nat, at: seq<nat>, first: int, last: int,
                                              ranges: seq<(int, int)>, target: Target, tokenize: string -> Tokens)
    requires i < |segments| && at != [] && forall k :: 0 <= k < |at| ==> at[k] < |segments|
    requires target.tokens == tokenize(TargetText(segments, at))
    requires target.firstTokens == tokenize(segments[at[0]].text) && target.maxSegments == |at| + 2
    ensures var excluded := Excluded(first, last, ranges);
            var span := Span(i, WindowStop(segments, i, i, excluded, target, tokenize));
            && (!Rejected(segments, i, excluded, target, tokenize) ==>
                  IsRepeat(segments, span, at, first, last, ranges, target.threshold, tokenize))
            && (forall other: Span ::
                  (other.first == i && IsRepeat(segments, other, at, first, last, ranges, target.threshold, tokenize))
                  ==> other == span && !Rejected(segments, i, excluded, target, tokenize))
  {
    hide Excluded, IsExcluded, WindowTokens, WindowStop, TargetText;
    ExcludedHas(first, last, ranges, segments[i].seqNum);
    var span := Span(i, WindowStop(segments, i, i, Excluded(first, last, ranges), target, tokenize));
    if !IsExcluded(segments[i].seqNum, first, last, ranges) {
      StopIsWindow(segments, i, i, first, last, ranges, target, tokenize);
      forall other: Span | other.first == i
                           && IsRepeat(segments, other, at, first, last, ranges, target.threshold, tokenize)
        ensures other == span
      {
        OneWindow(segments, other, span, first, last, ranges, |at| + 2, |target.tokens|, tokenize);
      }
    }
  }

  /** A complete scan with increasing numbers reports the repeats. */
  lemma {:induction false} ScanAnswers(segments: seq<Segment>, spans: seq<Span>, candidates: seq<Candidate>,
                                       at: seq<nat>, first: int, last: int, ranges: seq<(int, int)>, target: Target,
                                       tokenize: string -> Tokens)
    requires Increasing(segments)
    requires CompleteScan(segments, spans, candidates, Excluded(first, last, ranges), target, tokenize)
    requires at != [] && forall k :: 0 <= k < |at| ==> at[k] < |segments|
    requires target.tokens == tokenize(TargetText(segments, at))
    requires target.firstTokens == tokenize(segments[at[0]].text) && target.maxSegments == |at| + 2
    ensures AreRepeats(candidates, spans, segments, at, first, last, ranges, target.threshold, tokenize)
  {
    hide Excluded, IsExcluded, WindowTokens, WindowStop, TargetText, Rejected, Matches, Increasing, IsRepeat, Taken;
    var excluded := Excluded(first, last, ranges);
    forall k: nat | k < |spans|
      ensures IsRepeat(segments, spans[k], at, first, last, ranges, target.threshold, tokenize)
    {
      CandidateSound(segments, spans, excluded, target, tokenize, k);
      RejectedIsNoRepeat(segments, spans[k].first, at, first, last, ranges, target, tokenize);
    }
    forall k: nat, m: nat | k < m < |spans|
      ensures spans[k].stop <= spans[m].first
    {
      StopsBefore(segments, spans, k, m, excluded, target, tokenize);
    }
    forall span: Span | IsRepeat(segments, span, at, first, last, ranges, target.threshold, tokenize)
      ensures InSpan(spans, span.first)
    {
      RepeatInside(segments, span, at, first, last, ranges, target.threshold, tokenize);
      RejectedIsNoRepeat(segments, span.first, at, first, last, ranges, target, tokenize);
      if !InSpan(spans, span.first) {
        OthersRejected(segments, spans, excluded, target, tokenize, span.first);
      }
    }
  }

  lemma {:induction false} RepeatInside(segments: seq<Segment>, span: Span, at: seq<nat>, first: int, last: int,
                                        ranges: seq<(int, int)>, threshold: real, tokenize: string -> Tokens)
    requires at != [] && forall k :: 0 <= k < |at| ==> at[k] < |segments|
    requires IsRepeat(segments, span, at, first, last, ranges, threshold, tokenize)
    ensures span.first < |segments|
  {
  }

  /** What is searched for is the target. */
  lemma {:induction false} TargetIs(segments: seq<Segment>, target: seq<Segment>, at: seq<nat>, threshold: real,
                                    tokenize: string -> Tokens)
    requires AreAt(target, segments, at)
    ensures TextOf(target) == TargetText(segments, at)
    ensures Searchable(target, tokenize) <==> at != [] && |tokenize(TargetText(segments, at))| >= 6
    ensures target != [] ==> var made := MakeTarget(target, threshold, tokenize);
              && made.tokens == tokenize(TargetText(segments, at)) && made.threshold == threshold
              && made.firstTokens == tokenize(segments[at[0]].text) && made.maxSegments == |at| + 2
  {
    assert seq(|target|, i requires 0 <= i < |target| => target[i].text)
        == seq(|at|, k requires 0 <= k < |at| => segments[at[k]].text);
  }

  lemma {:induction false} FoundAnswers(segments: seq<Segment>, first: int, last: int, ranges: seq<(int, int)>,
                                        threshold: real, tokenize: string -> Tokens, candidates: seq<Candidate>)
    returns (at: seq<nat>, spans: seq<Span>)
    requires Increasing(segments)
    requires var target := TargetSegments(segments, first, last);
             if Searchable(target, tokenize) then
               exists spans :: CompleteScan(segments, spans, candidates, Excluded(first, last, ranges),
                                            MakeTarget(target, threshold, tokenize), tokenize)
             else candidates == []
    ensures IsAnswer(candidates, spans, segments, at, first, last, ranges, threshold, tokenize)
  {
    hide CompleteScan, Increasing, AreRepeats, MakeTarget, TargetText, Searchable, Excluded;
    at := TargetAt(segments, first, last);
    var target := TargetSegments(segments, first, last);
    TargetIs(segments, target, at, threshold, tokenize);
    spans := [];
    if Searchable(target, tokenize) {
      SearchableHas(target, tokenize);
      spans :| CompleteScan(segments, spans, candidates, Excluded(first, last, ranges),
                            MakeTarget(target, threshold, tokenize), tokenize);
      ScanAnswers(segments, spans, candidates, at, first, last, ranges, MakeTarget(target, threshold, tokenize),
                  tokenize);
    }
  }

  lemma {:induction false} SearchableHas(target: seq<Segment>, tokenize: string -> Tokens)
    requires Searchable(target, tokenize)
    ensures target != []
  {
  }

  lemma {:induction false} Answered(segments: seq<Segment>, first: int, last: int, ranges: seq<(int, int)>,
                                    threshold: real, tokenize: string -> Tokens, candidates: seq<Candidate>)
    requires var target := TargetSegments(segments, first, last);
             if Searchable(target, tokenize) then
               exists spans :: CompleteScan(segments, spans, candidates, Excluded(first, last, ranges),
                                            MakeTarget(target, threshold, tokenize), tokenize)
             else candidates == []
    ensures Increasing(segments) ==>
              exists at, spans :: IsAnswer(candidates, spans, segments, at, first, last, ranges, threshold, tokenize)
  {
    hide *;
    if Increasing(segments) {
      var at, spans := FoundAnswers(segments, first, last, ranges, threshold, tokenize, candidates);
    }
  }

  // ---------- the whole search ----------

  method FindRepeatAdCandidates(segments: seq<Segment>, first: int, last: int, excludeRanges: seq<(int, int)>,
                                threshold: real, tokenize: string -> Tokens)
    returns (candidates: seq<Candidate>)
    ensures if Searchable(TargetSegments(segments, first, last), tokenize) then
              var target := MakeTarget(TargetSegments(segments, first, last), threshold, tokenize);
              exists spans ::
                CompleteScan(segments, spans, candidates, Excluded(first, last, excludeRanges), target, tokenize)
            else candidates == []
    ensures Increasing(segments) ==>
              exists at, spans ::
                IsAnswer(candidates, spans, segments, at, first, last, excludeRanges, threshold, tokenize)
  {
    hide IsAnswer, CompleteScan, Increasing;
    candidates := [];
    if |segments| == 0 {
      Answered(segments, first, last, excludeRanges, threshold, tokenize, candidates);
      return;
    }
    var targetSegments := [];
    for i := 0 to |segments|
      invariant targetSegments == TargetSegments(segments[..i], first, last)
    {
      assert segments[..i + 1][..i] == segments[..i];
      if segments[i].seqNum >= first && segments[i].seqNum <= last {
        targetSegments := targetSegments + [segments[i]];
      }
    }
    assert segments[..|segments|] == segments;
    if |targetSegments| == 0 {
      Answered(segments, first, last, excludeRanges, threshold, tokenize, candidates);
      return;
    }
    var target := MakeTarget(targetSegments, threshold, tokenize);
    if |target.tokens| < MIN_TARGET_TOKENS {
      Answered(segments, first, last, excludeRanges, threshold, tokenize, candidates);
      return;
    }
    var excluded := Range(first, last);
    for r := 0 to |excludeRanges|
      invariant excluded == Range(first, last) + InRanges(excludeRanges[..r])
    {
      assert excludeRanges[..r + 1][..r] == excludeRanges[..r];
      excluded := excluded + Range(excludeRanges[r].0, excludeRanges[r].1);
    }
    assert excludeRanges[..|excludeRanges|] == excludeRanges;
    candidates := Scan(segments, excluded, target, tokenize);
    assert target == MakeTarget(TargetSegments(segments, first, last), threshold, tokenize);
    assert excluded == Excluded(first, last, excludeRanges);
    Answered(segments, first, last, excludeRanges, threshold, tokenize, candidates);
  }

  /** A window's tokens are those of its segments, one after the other. */
  lemma {:induction false} WindowTokensSplit(segments: seq<Segment>, i: nat, j: nat, k: nat, tokenize: string -> Tokens)
    requires i <= j <= k <= |segments|
    ensures WindowTokens(segments, i, k, tokenize)
         == WindowTokens(segments, i, j, tokenize) + WindowTokens(segments, j, k, tokenize)
    ensures WindowTokens(segments, i, i, tokenize) == []
    ensures i < |segments| ==> WindowTokens(segments, i, i + 1, tokenize) == tokenize(segments[i].text)
    decreases k
  {
    if j < k {
      WindowTokensSplit(segments, i, j, k - 1, tokenize);
      var first, second := WindowTokens(segments, i, j, tokenize), WindowTokens(segments, j, k - 1, tokenize);
      assert first + (second + tokenize(segments[k - 1].text)) == first + second + tokenize(segments[k - 1].text);
    }
  }
}
