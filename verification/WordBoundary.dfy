/** Refining the start and end of a detected ad inside its transcript segments, along the path that
    loads a whole episode and along the one that loads only what it needs. Times are seconds. */
module WordBoundary {
  import opened Basics
  import opened Sorting

  const MAX_START_EXTENSION := 30.0
  const MAX_END_EXTENSION := 15.0
  const PHRASE_MAX_WORDS := 4

  /** A stored word with the timestamps it may carry. */
  datatype Word = Word(text: string, start: Option<real>, end: Option<real>)

  /** A transcript row as the database returns it. */
  datatype Row = Row(seqNum: int, start: real, end: real, text: string)

  datatype Segment = Segment(row: Row, words: seq<Word>)

  /** One entry of the stored word-timestamp array; either part may be missing or of another type. */
  datatype WordEntry = WordEntry(seqNum: Option<int>, words: Option<seq<Word>>)

  /** Text handling that depends on Unicode tables. */
  datatype TextOps = TextOps(
    splitWords: string -> seq<string>,
    lower: string -> string,
    normalizeLower: string -> string,
    trimLower: string -> string,
    hasText: string -> bool)

  datatype Request = Request(
    adStart: real, adEnd: real, firstSeq: Option<int>, lastSeq: Option<int>,
    startSeq: Option<int>, startPhrase: Option<string>, startWord: Option<string>,
    startOccurrence: Option<string>, startWordIndex: Option<int>,
    endSeq: Option<int>, endPhrase: Option<string>)

  datatype Boundary = Boundary(time: real, changed: bool, error: Option<string>)

  datatype Resolution = Resolution(start: Boundary, end: Boundary)

  function MaxReal(x: real, y: real): real { if x < y then y else x }

  function MinReal(x: real, y: real): real { if x < y then x else y }

  // ---------- phrase matching ----------

  predicate MatchesAt(words: seq<string>, target: seq<string>, i: int) {
    0 <= i && i + |target| <= |words| && words[i..i + |target|] == target
  }

  /** The first position at or after i where the target occurs. */
  function FirstMatch(words: seq<string>, target: seq<string>, i: nat): (m: Option<nat>)
    ensures m.Some? ==> i <= m.value && MatchesAt(words, target, m.value)
    ensures m.Some? ==> forall k :: i <= k < m.value ==> !MatchesAt(words, target, k)
    ensures m.None? ==> forall k :: i <= k ==> !MatchesAt(words, target, k)
    decreases |words| - i
  {
    if i + |target| > |words| then None
    else if MatchesAt(words, target, i) then Some(i)
    else FirstMatch(words, target, i + 1)
  }

  /** The last position before i where the target occurs. */
  function LastMatch(words: seq<string>, target: seq<string>, i: nat): (m: Option<nat>)
    ensures m.Some? ==> m.value < i && MatchesAt(words, target, m.value)
    ensures m.Some? ==> forall k :: m.value < k < i ==> !MatchesAt(words, target, k)
    ensures m.None? ==> forall k :: 0 <= k < i ==> !MatchesAt(words, target, k)
  {
    if i == 0 then None
    else if MatchesAt(words, target, i - 1) then Some(i - 1)
    else LastMatch(words, target, i - 1)
  }

  function FindSubsequence(words: seq<string>, target: seq<string>, chooseLast: bool): (m: Option<(nat, nat)>)
    ensures m.Some? ==> target != [] && MatchesAt(words, target, m.value.0) && m.value.1 == m.value.0 + |target| - 1
    ensures m.None? && target != [] ==> forall k :: 0 <= k ==> !MatchesAt(words, target, k)
  {
    if target == [] || |target| > |words| then None
    else
      var at := if chooseLast then LastMatch(words, target, |words| - |target| + 1) else FirstMatch(words, target, 0);
      if at.None? then None else Some((at.value, at.value + |target| - 1))
  }

  /** The part of the phrase of length k that is searched for: its start, or its end. */
  function Part(phrase: seq<string>, atEnd: bool, k: nat): seq<string>
    requires k <= |phrase|
  {
    if atEnd then phrase[|phrase| - k..] else phrase[..k]
  }

  function ShrinkingMatch(words: seq<string>, phrase: seq<string>, atEnd: bool, k: nat): (m: Option<(nat, nat)>)
    requires k <= |phrase|
    ensures m.Some? ==> m.value.0 <= m.value.1 < |words| && m.value.1 + 1 - m.value.0 <= k
  {
    if k == 0 then None
    else
      var m := FindSubsequence(words, Part(phrase, atEnd, k), atEnd);
      if m.Some? then m else ShrinkingMatch(words, phrase, atEnd, k - 1)
  }

  /** The match is an occurrence of a part of the phrase, and no longer part occurs anywhere. */
  lemma {:induction false} LongestPartMatches(words: seq<string>, phrase: seq<string>, atEnd: bool, k: nat, j: nat,
                                              i: nat)
    requires k <= |phrase|
    ensures var m := ShrinkingMatch(words, phrase, atEnd, k);
            && (m.Some? ==> MatchesAt(words, Part(phrase, atEnd, m.value.1 + 1 - m.value.0), m.value.0))
            && (0 < j <= k && (m.Some? ==> m.value.1 + 1 - m.value.0 < j) ==>
                  !MatchesAt(words, Part(phrase, atEnd, j), i))
  {
    hide FirstMatch, LastMatch, MatchesAt;
    if k > 0 && FindSubsequence(words, Part(phrase, atEnd, k), atEnd).None? {
      LongestPartMatches(words, phrase, atEnd, k - 1, j, i);
    }
  }

  /** Where the longest part of the phrase, up to the word limit, occurs. */
  function FindPhraseMatch(words: seq<string>, phrase: seq<string>, atEnd: bool): (m: Option<(nat, nat)>)
    ensures m.Some? ==> m.value.0 <= m.value.1 < |words|
  {
    if words == [] || phrase == [] then None
    else ShrinkingMatch(words, phrase, atEnd, Min(|phrase|, PHRASE_MAX_WORDS))
  }

  // ---------- times inside one segment ----------

  function TimedWords(ops: TextOps, words: seq<Word>): seq<Word> {
    if words == [] then []
    else
      var init, last := words[..|words| - 1], words[|words| - 1];
      var token := ops.normalizeLower(last.text);
      if token == "" then TimedWords(ops, init) else TimedWords(ops, init) + [last.(text := token)]
  }

  function Texts(words: seq<Word>): (texts: seq<string>)
    ensures |texts| == |words|
  {
    if words == [] then [] else Texts(words[..|words| - 1]) + [words[|words| - 1].text]
  }

  function LowerAll(ops: TextOps, words: seq<string>): seq<string> {
    if words == [] then [] else LowerAll(ops, words[..|words| - 1]) + [ops.lower(words[|words| - 1])]
  }

  function SplitLower(ops: TextOps, text: string): seq<string> {
    LowerAll(ops, ops.splitWords(text))
  }

  function ExactTime(ops: TextOps, segment: Segment, phrase: seq<string>, atEnd: bool): Option<real> {
    var timed := TimedWords(ops, segment.words);
    var m := FindPhraseMatch(Texts(timed), phrase, atEnd);
    if m.None? then None else if atEnd then timed[m.value.1].end else timed[m.value.0].start
  }

  /** The phrase's exact timestamp in the segment, or else its place in an even spread of the words. */
  function PhraseTimeInSegment(ops: TextOps, segment: Segment, phrase: seq<string>, atEnd: bool): Option<real> {
    var exact := ExactTime(ops, segment, phrase, atEnd);
    if exact.Some? then exact
    else
      var start, end := segment.row.start, MaxReal(segment.row.end, segment.row.start);
      var duration := MaxReal(end - start, 0.0);
      var words := SplitLower(ops, segment.row.text);
      if words == [] || duration <= 0.0 then None
      else
        var m := FindPhraseMatch(words, phrase, atEnd);
        if m.None? then None
        else
          Some(PlaceTime(start, end, duration, |words|, if atEnd then m.value.1 + 1 else m.value.0))
  }

  /** The end of the place-th of the words that share the duration evenly. */
  function PlaceTime(start: real, end: real, duration: real, words: nat, place: nat): real
    requires 0 < words
  {
    var perWord := duration / words as real;
    MinReal(start + place as real * perWord, end)
  }

  /** The first with the number, among rows or segments. */
  function Find<T>(numberOf: T -> int, xs: seq<T>, seqNum: Option<int>): (found: Option<T>)
    ensures found.Some? ==> seqNum == Some(numberOf(found.value))
  {
    if seqNum.None? || xs == [] then None
    else
      var before, last := Find(numberOf, xs[..|xs| - 1], seqNum), xs[|xs| - 1];
      if before.Some? then before else if numberOf(last) == seqNum.value then Some(last) else None
  }

  /** Those with numbers from `lo` to `hi`. */
  function Within<T>(numberOf: T -> int, xs: seq<T>, lo: int, hi: int): seq<T> {
    if xs == [] then []
    else
      var init, last := xs[..|xs| - 1], xs[|xs| - 1];
      if lo <= numberOf(last) <= hi then Within(numberOf, init, lo, hi) + [last] else Within(numberOf, init, lo, hi)
  }

  function FindSegment(segments: seq<Segment>, seqNum: Option<int>): Option<Segment> {
    Find((s: Segment) => s.row.seqNum, segments, seqNum)
  }

  function InRange(segments: seq<Segment>, lo: int, hi: int): seq<Segment> {
    Within((s: Segment) => s.row.seqNum, segments, lo, hi)
  }

  function FindRow(rows: seq<Row>, seqNum: Option<int>): Option<Row> {
    Find((r: Row) => r.seqNum, rows, seqNum)
  }

  function RowsInRange(rows: seq<Row>, lo: int, hi: int): seq<Row> {
    Within((r: Row) => r.seqNum, rows, lo, hi)
  }

  predicate BySeqNum(a: Segment, b: Segment) { a.row.seqNum <= b.row.seqNum }

  function Reverse(segments: seq<Segment>): seq<Segment> {
    if segments == [] then [] else [segments[|segments| - 1]] + Reverse(segments[..|segments| - 1])
  }

  function Others(segments: seq<Segment>, seqNum: Option<int>): seq<Segment> {
    if segments == [] then []
    else
      var init, last := segments[..|segments| - 1], segments[|segments| - 1];
      if Some(last.row.seqNum) == seqNum then Others(init, seqNum) else Others(init, seqNum) + [last]
  }

  /** The segments to search: the preferred one, then the context from the near side. */
  function PhraseCandidates(preferred: Option<Segment>, context: seq<Segment>, seqNum: Option<int>,
                            atEnd: bool): seq<Segment> {
    var sorted := Sort(BySeqNum, context);
    var rest := Others(if atEnd then Reverse(sorted) else sorted, seqNum);
    if preferred.Some? then [preferred.value] + rest else rest
  }

  function FirstPhraseTime(ops: TextOps, candidates: seq<Segment>, phrase: seq<string>, atEnd: bool): Option<real> {
    if candidates == [] then None
    else
      var here := PhraseTimeInSegment(ops, candidates[0], phrase, atEnd);
      if here.Some? then here else FirstPhraseTime(ops, candidates[1..], phrase, atEnd)
  }

  function PhraseTime(ops: TextOps, segments: seq<Segment>, context: seq<Segment>, seqNum: Option<int>,
                      phrase: Option<string>, atEnd: bool): Option<real>
  {
    if phrase.None? then None
    else
      var tokens := SplitLower(ops, phrase.value);
      if tokens == [] then None
      else FirstPhraseTime(ops, PhraseCandidates(FindSegment(segments, seqNum), context, seqNum, atEnd), tokens, atEnd)
  }

  // ---------- word times ----------

  function IndicesOf(ops: TextOps, words: seq<string>, target: string): (at: seq<nat>)
    ensures forall k :: 0 <= k < |at| ==> at[k] < |words|
  {
    if words == [] then []
    else
      var n := |words| - 1;
      if ops.lower(words[n]) == target then IndicesOf(ops, words[..n], target) + [n]
      else IndicesOf(ops, words[..n], target)
  }

  function ResolveWordIndex(ops: TextOps, words: seq<string>, word: Option<string>, occurrence: Option<string>,
                            wordIndex: Option<int>): (i: nat)
    ensures words != [] ==> i < |words|
  {
    var target := if word.Some? then ops.normalizeLower(word.value) else "";
    var at := if target == "" then [] else IndicesOf(ops, words, target);
    if at != [] then
      if ops.trimLower(if occurrence.Some? then occurrence.value else "") == "last" then at[|at| - 1] else at[0]
    else
      Max(0, Min(Max(0, if wordIndex.Some? then wordIndex.value else 0), |words| - 1))
  }

  function WordTime(ops: TextOps, segments: seq<Segment>, r: Request): real {
    var found := FindSegment(segments, r.startSeq);
    if found.None? then (if segments == [] then 0.0 else segments[0].row.start)
    else
      var segment := found.value;
      var start, end := segment.row.start, MaxReal(segment.row.end, segment.row.start);
      var duration := MaxReal(end - start, 0.0);
      var timed := TimedWords(ops, segment.words);
      var exact := if timed == [] then None
                   else timed[ResolveWordIndex(ops, Texts(timed), r.startWord, r.startOccurrence,
                                               r.startWordIndex)].start;
      if exact.Some? then MinReal(exact.value, end)
      else
        var words := ops.splitWords(segment.row.text);
        if words == [] || duration <= 0.0 then start
        else
          var i := ResolveWordIndex(ops, words, r.startWord, r.startOccurrence, r.startWordIndex);
          MinReal(start + i as real * (duration / |words| as real), end)
  }

  // ---------- refinement ----------

  function ConstrainStart(estimated: real, original: real): real {
    MaxReal(estimated, original - MAX_START_EXTENSION)
  }

  function ConstrainEnd(estimated: real, original: real): real {
    MinReal(estimated, original + MAX_END_EXTENSION)
  }

  predicate HasText(ops: TextOps, s: Option<string>) {
    s.Some? && ops.hasText(s.value)
  }

  function RefineStart(ops: TextOps, segments: seq<Segment>, context: seq<Segment>, r: Request): Boundary {
    var found := FindSegment(segments, r.startSeq);
    if HasText(ops, r.startPhrase) then
      var t := PhraseTime(ops, segments, context, r.startSeq, r.startPhrase, false);
      if t.Some? then Boundary(ConstrainStart(t.value, r.adStart), true, None)
      else Boundary(r.adStart, false, Some("start_phrase_not_found"))
    else if found.Some? then
      var constrained := ConstrainStart(found.value.row.start, r.adStart);
      Boundary(constrained, constrained != r.adStart, None)
    else if HasText(ops, r.startWord) || r.startWordIndex.Some? then
      Boundary(ConstrainStart(WordTime(ops, segments, r), r.adStart), true, None)
    else
      Boundary(r.adStart, false, None)
  }

  function RefineEnd(ops: TextOps, segments: seq<Segment>, context: seq<Segment>, r: Request): Boundary {
    if !HasText(ops, r.endPhrase) then
      var found := FindSegment(segments, r.endSeq);
      if found.Some? then
        var constrained := ConstrainEnd(found.value.row.end, r.adEnd);
        Boundary(constrained, constrained != r.adEnd, None)
      else Boundary(r.adEnd, false, None)
    else
      var t := PhraseTime(ops, segments, context, r.endSeq, r.endPhrase, true);
      if t.Some? then Boundary(ConstrainEnd(t.value, r.adEnd), true, None)
      else Boundary(r.adEnd, false, Some("end_phrase_not_found"))
  }

  // ---------- choosing the context ----------

  function LeastSeq(segments: seq<Segment>): (m: int)
    requires segments != []
    ensures forall i :: 0 <= i < |segments| ==> m <= segments[i].row.seqNum
  {
    if |segments| == 1 then segments[0].row.seqNum
    else Min(LeastSeq(segments[..|segments| - 1]), segments[|segments| - 1].row.seqNum)
  }

  function GreatestSeq(segments: seq<Segment>): (m: int)
    requires segments != []
    ensures forall i :: 0 <= i < |segments| ==> segments[i].row.seqNum <= m
  {
    if |segments| == 1 then segments[0].row.seqNum
    else Max(GreatestSeq(segments[..|segments| - 1]), segments[|segments| - 1].row.seqNum)
  }

  predicate Overlaps(row: Row, adStart: real, adEnd: real) {
    row.start <= adEnd && row.end >= adStart
  }

  /** The first overlapping position at or after i, or the length. */
  function FirstOverlap(rows: seq<Row>, adStart: real, adEnd: real, i: nat): (k: nat)
    requires i <= |rows|
    ensures i <= k <= |rows|
    decreases |rows| - i
  {
    if i == |rows| || Overlaps(rows[i], adStart, adEnd) then i else FirstOverlap(rows, adStart, adEnd, i + 1)
  }

  /** One past the last overlapping position before i, or zero. */
  function LastOverlap(rows: seq<Row>, adStart: real, adEnd: real, i: nat): (k: nat)
    requires i <= |rows|
    ensures k <= i
  {
    if i == 0 || Overlaps(rows[i - 1], adStart, adEnd) then i else LastOverlap(rows, adStart, adEnd, i - 1)
  }

  /** The overlapping run with two more rows on either side, as positions [from, to). */
  function OverlapRange(rows: seq<Row>, adStart: real, adEnd: real): (range: (nat, nat))
    ensures range.0 <= range.1 <= |rows|
  {
    var first, last := FirstOverlap(rows, adStart, adEnd, 0), LastOverlap(rows, adStart, adEnd, |rows|);
    if first >= last then (0, 0) else (Max(0, first - 2), Min(last + 2, |rows|))
  }

  function RowsOf(segments: seq<Segment>): (rows: seq<Row>)
    ensures |rows| == |segments|
    ensures forall i :: 0 <= i < |segments| ==> rows[i] == segments[i].row
  {
    if segments == [] then [] else RowsOf(segments[..|segments| - 1]) + [segments[|segments| - 1].row]
  }

  function ByOverlap(segments: seq<Segment>, adStart: real, adEnd: real): seq<Segment> {
    var range := OverlapRange(RowsOf(segments), adStart, adEnd);
    segments[range.0..range.1]
  }

  function BySeqWindow(segments: seq<Segment>, first: int, last: int): seq<Segment> {
    if segments == [] then []
    else InRange(segments, Max(LeastSeq(segments), first - 2), Min(GreatestSeq(segments), last + 2))
  }

  function SelectContext(segments: seq<Segment>, r: Request): seq<Segment> {
    var selected :=
      if r.firstSeq.Some? && r.lastSeq.Some? then BySeqWindow(segments, r.firstSeq.value, r.lastSeq.value) else [];
    if selected != [] then selected else ByOverlap(segments, r.adStart, r.adEnd)
  }

  // ---------- the two paths ----------

  type WordsBySeq = map<int, seq<Word>>

  function AttachOne(row: Row, words: WordsBySeq): Segment {
    Segment(row, if row.seqNum in words then words[row.seqNum] else [])
  }

  function Attach(rows: seq<Row>, words: WordsBySeq): (segments: seq<Segment>)
    ensures |segments| == |rows|
    ensures forall i :: 0 <= i < |rows| ==> segments[i] == AttachOne(rows[i], words)
  {
    if rows == [] then [] else Attach(rows[..|rows| - 1], words) + [AttachOne(rows[|rows| - 1], words)]
  }

  function Resolve(ops: TextOps, segments: seq<Segment>, r: Request): Resolution {
    var context := SelectContext(segments, r);
    Resolution(RefineStart(ops, segments, context, r), RefineEnd(ops, segments, context, r))
  }

  /** All words of the episode; an entry without a number, or without words, is skipped. */
  function AllWords(entries: seq<WordEntry>): WordsBySeq {
    if entries == [] then map[]
    else
      var before, e := AllWords(entries[..|entries| - 1]), entries[|entries| - 1];
      if e.seqNum.Some? && e.words.Some? && e.words.value != [] then before[e.seqNum.value := e.words.value] else before
  }

  predicate AllNumbered(entries: seq<WordEntry>) {
    forall i :: 0 <= i < |entries| ==> entries[i].seqNum.Some?
  }

  function PickWords(entries: seq<WordEntry>, wanted: set<int>): WordsBySeq {
    if entries == [] then map[]
    else
      var before, e := PickWords(entries[..|entries| - 1], wanted), entries[|entries| - 1];
      if e.seqNum.Some? && e.seqNum.value in wanted && e.words.Some? && e.words.value != []
      then before[e.seqNum.value := e.words.value] else before
  }

  /** The words of the wanted segments only; one entry without a number spoils the whole array. */
  function WantedWords(entries: seq<WordEntry>, wanted: set<int>): WordsBySeq {
    if wanted == {} || !AllNumbered(entries) then map[] else PickWords(entries, wanted)
  }

  /** The path that loads every row and every word of the episode. */
  function ResolveFull(ops: TextOps, rows: seq<Row>, entries: seq<WordEntry>, r: Request): Resolution {
    Resolve(ops, Attach(rows, AllWords(entries)), r)
  }

  function Including(range: (int, int), seqNum: Option<int>): (int, int) {
    if seqNum.None? then range else (Min(range.0, seqNum.value), Max(range.1, seqNum.value))
  }

  /** The numbers the lazy path asks the database for. */
  function QueryRange(r: Request): (int, int)
    requires r.firstSeq.Some? && r.lastSeq.Some?
  {
    var lo, hi := Min(r.firstSeq.value, r.lastSeq.value), Max(r.firstSeq.value, r.lastSeq.value);
    Including(Including((lo - 4, hi + 4), r.startSeq), r.endSeq)
  }

  function LoadedRows(rows: seq<Row>, r: Request): seq<Row> {
    if r.firstSeq.Some? && r.lastSeq.Some? then RowsInRange(rows, QueryRange(r).0, QueryRange(r).1) else rows
  }

  function SeqNums(segments: seq<Segment>): (s: set<int>)
    ensures forall i :: 0 <= i < |segments| ==> segments[i].row.seqNum in s
  {
    if segments == [] then {} else SeqNums(segments[..|segments| - 1]) + {segments[|segments| - 1].row.seqNum}
  }

  function Wanted(loaded: seq<Row>, r: Request): set<int> {
    SeqNums(SelectContext(Attach(loaded, map[]), r))
    + (if r.startSeq.Some? then {r.startSeq.value} else {})
    + (if r.endSeq.Some? then {r.endSeq.value} else {})
  }

  predicate NeedsWords(ops: TextOps, r: Request) {
    HasText(ops, r.startPhrase) || HasText(ops, r.endPhrase) || HasText(ops, r.startWord) || r.startWordIndex.Some?
  }

  function LazyWords(ops: TextOps, loaded: seq<Row>, entries: seq<WordEntry>, r: Request): WordsBySeq {
    if NeedsWords(ops, r) then WantedWords(entries, Wanted(loaded, r)) else map[]
  }

  /** The path that loads a range of rows and the words of the segments it will look at. */
  function ResolveLazy(ops: TextOps, rows: seq<Row>, entries: seq<WordEntry>, r: Request): Resolution {
    var loaded := LoadedRows(rows, r);
    Resolve(ops, Attach(loaded, LazyWords(ops, loaded, entries, r)), r)
  }

  // ---------- bounds ----------

  ghost predicate StartBounded(b: Boundary, original: real) {
    b.time >= original - MAX_START_EXTENSION && (b.error.Some? ==> b.time == original && !b.changed)
  }

  ghost predicate EndBounded(b: Boundary, original: real) {
    b.time <= original + MAX_END_EXTENSION && (b.error.Some? ==> b.time == original && !b.changed)
  }

  lemma {:induction false} RefineStartBounded(ops: TextOps, segments: seq<Segment>, context: seq<Segment>, r: Request)
    ensures StartBounded(RefineStart(ops, segments, context, r), r.adStart)
  {
  }

  lemma {:induction false} RefineEndBounded(ops: TextOps, segments: seq<Segment>, context: seq<Segment>, r: Request)
    ensures EndBounded(RefineEnd(ops, segments, context, r), r.adEnd)
  {
  }

  lemma {:induction false} ResolveBounded(ops: TextOps, segments: seq<Segment>, r: Request)
    ensures StartBounded(Resolve(ops, segments, r).start, r.adStart)
    ensures EndBounded(Resolve(ops, segments, r).end, r.adEnd)
  {
    RefineStartBounded(ops, segments, SelectContext(segments, r), r);
    RefineEndBounded(ops, segments, SelectContext(segments, r), r);
  }

  /** Whatever the request, neither path moves the start more than 30 s earlier or the end more than
      15 s later, and a phrase that is not found leaves its boundary where it was. */
  lemma {:induction false} PathsBounded(ops: TextOps, rows: seq<Row>, entries: seq<WordEntry>, r: Request)
    ensures StartBounded(ResolveFull(ops, rows, entries, r).start, r.adStart)
    ensures EndBounded(ResolveFull(ops, rows, entries, r).end, r.adEnd)
    ensures StartBounded(ResolveLazy(ops, rows, entries, r).start, r.adStart)
    ensures EndBounded(ResolveLazy(ops, rows, entries, r).end, r.adEnd)
  {
    ResolveBounded(ops, Attach(rows, AllWords(entries)), r);
    ResolveBounded(ops, Attach(LoadedRows(rows, r), LazyWords(ops, LoadedRows(rows, r), entries, r)), r);
  }

  // ---------- agreement of the two paths ----------

  /** A narrower range of a wider range is the narrower range. */
  lemma {:induction false} RangeOfRange(rows: seq<Row>, lo: int, hi: int, lo': int, hi': int)
    requires lo <= lo' && hi' <= hi
    ensures RowsInRange(RowsInRange(rows, lo, hi), lo', hi') == RowsInRange(rows, lo', hi')
  {
    if rows != [] {
      var init, last := rows[..|rows| - 1], rows[|rows| - 1];
      RangeOfRange(init, lo, hi, lo', hi');
      if lo <= last.seqNum <= hi {
        assert RowsInRange(rows, lo, hi)[..|RowsInRange(init, lo, hi)|] == RowsInRange(init, lo, hi);
      }
    }
  }

  lemma {:induction false} AttachSnoc(rows: seq<Row>, last: Row, words: WordsBySeq)
    ensures Attach(rows + [last], words) == Attach(rows, words) + [AttachOne(last, words)]
  {
    assert (rows + [last])[..|rows|] == rows;
  }

  lemma {:induction false} InRangeAttach(rows: seq<Row>, words: WordsBySeq, lo: int, hi: int)
    ensures InRange(Attach(rows, words), lo, hi) == Attach(RowsInRange(rows, lo, hi), words)
  {
    hide Attach;
    if rows != [] {
      var init, last := rows[..|rows| - 1], rows[|rows| - 1];
      InRangeAttach(init, words, lo, hi);
      assert Attach(rows, words)[..|init|] == Attach(init, words);
      AttachSnoc(RowsInRange(init, lo, hi), last, words);
    }
  }

  /** Clamping a window to the numbers present changes nothing. */
  lemma {:induction false} ClampedRange(segments: seq<Segment>, lo: int, hi: int, least: int, greatest: int)
    requires forall i :: 0 <= i < |segments| ==> least <= segments[i].row.seqNum <= greatest
    ensures InRange(segments, Max(least, lo), Min(greatest, hi)) == InRange(segments, lo, hi)
  {
    if segments != [] {
      ClampedRange(segments[..|segments| - 1], lo, hi, least, greatest);
    }
  }

  lemma {:induction false} WindowIsRange(rows: seq<Row>, words: WordsBySeq, first: int, last: int)
    ensures BySeqWindow(Attach(rows, words), first, last) == Attach(RowsInRange(rows, first - 2, last + 2), words)
  {
    var segments := Attach(rows, words);
    if rows != [] {
      ClampedRange(segments, first - 2, last + 2, LeastSeq(segments), GreatestSeq(segments));
      InRangeAttach(rows, words, first - 2, last + 2);
    }
  }

  /** The overlapping run depends on the rows alone. */
  lemma {:induction false} OverlapAttach(rows: seq<Row>, words: WordsBySeq, adStart: real, adEnd: real)
    ensures ByOverlap(Attach(rows, words), adStart, adEnd)
         == Attach(rows, words)[OverlapRange(rows, adStart, adEnd).0..OverlapRange(rows, adStart, adEnd).1]
  {
    assert RowsOf(Attach(rows, words)) == rows;
  }

  lemma {:induction false} AllWordsPick(entries: seq<WordEntry>, wanted: set<int>, n: int)
    requires n in wanted
    ensures (n in PickWords(entries, wanted) <==> n in AllWords(entries))
    ensures n in AllWords(entries) ==> PickWords(entries, wanted)[n] == AllWords(entries)[n]
  {
    if entries != [] {
      AllWordsPick(entries[..|entries| - 1], wanted, n);
    }
  }

  lemma {:induction false} FindAttached(rows: seq<Row>, words: WordsBySeq, seqNum: Option<int>)
    ensures FindSegment(Attach(rows, words), seqNum)
         == if FindRow(rows, seqNum).Some? then Some(AttachOne(FindRow(rows, seqNum).value, words)) else None
  {
    if rows != [] {
      FindAttached(rows[..|rows| - 1], words, seqNum);
      assert Attach(rows, words)[..|rows| - 1] == Attach(rows[..|rows| - 1], words);
    }
  }

  lemma {:induction false} FindInRange(rows: seq<Row>, lo: int, hi: int, seqNum: Option<int>)
    requires seqNum.Some? ==> lo <= seqNum.value <= hi
    ensures FindRow(RowsInRange(rows, lo, hi), seqNum) == FindRow(rows, seqNum)
  {
    if rows != [] {
      var init, last := rows[..|rows| - 1], rows[|rows| - 1];
      FindInRange(init, lo, hi, seqNum);
      if lo <= last.seqNum <= hi {
        assert RowsInRange(rows, lo, hi)[..|RowsInRange(init, lo, hi)|] == RowsInRange(init, lo, hi);
      }
    }
  }

  /** A named segment is loaded by the lazy path whenever the episode has it. */
  lemma {:induction false} NamedIsLoaded(rows: seq<Row>, r: Request, seqNum: Option<int>)
    requires seqNum == r.startSeq || seqNum == r.endSeq
    ensures FindRow(LoadedRows(rows, r), seqNum) == FindRow(rows, seqNum)
  {
    if r.firstSeq.Some? && r.lastSeq.Some? {
      FindInRange(rows, QueryRange(r).0, QueryRange(r).1, seqNum);
    }
  }

  /** The sequence window selects at least one segment, or none was given. */
  predicate WindowSelects(rows: seq<Row>, r: Request) {
    r.firstSeq.Some? && r.lastSeq.Some? ==> RowsInRange(rows, r.firstSeq.value - 2, r.lastSeq.value + 2) != []
  }

  /** The start is estimated from a word while no segment of that number exists, so that it falls back
      to the first segment loaded. */
  predicate FallsBackToFirst(ops: TextOps, rows: seq<Row>, r: Request) {
    && !HasText(ops, r.startPhrase)
    && FindRow(rows, r.startSeq).None?
    && (HasText(ops, r.startWord) || r.startWordIndex.Some?)
  }

  predicate UsesPhrase(ops: TextOps, r: Request) {
    HasText(ops, r.startPhrase) || HasText(ops, r.endPhrase)
  }

  lemma {:induction false} ContextIsWindow(segments: seq<Segment>, r: Request)
    requires r.firstSeq.Some? && r.lastSeq.Some?
    requires BySeqWindow(segments, r.firstSeq.value, r.lastSeq.value) != []
    ensures SelectContext(segments, r) == BySeqWindow(segments, r.firstSeq.value, r.lastSeq.value)
  {
    hide LeastSeq, GreatestSeq, InRange;
  }

  /** The rows of the context: those of the padded window, or the overlapping run when it holds none. */
  function ContextRows(rows: seq<Row>, r: Request): seq<Row> {
    var window :=
      if r.firstSeq.Some? && r.lastSeq.Some? then RowsInRange(rows, r.firstSeq.value - 2, r.lastSeq.value + 2) else [];
    var range := OverlapRange(rows, r.adStart, r.adEnd);
    if window != [] then window else rows[range.0..range.1]
  }

  lemma {:induction false} SlicesSame(rows: seq<Row>, words: WordsBySeq, lo: nat, hi: nat)
    requires lo <= hi <= |rows|
    ensures Attach(rows, words)[lo..hi] == Attach(rows[lo..hi], words)
  {
  }

  lemma {:induction false} ContextIsOverlap(segments: seq<Segment>, r: Request)
    requires r.firstSeq.Some? && r.lastSeq.Some? ==> BySeqWindow(segments, r.firstSeq.value, r.lastSeq.value) == []
    ensures SelectContext(segments, r) == ByOverlap(segments, r.adStart, r.adEnd)
  {
    hide LeastSeq, GreatestSeq, InRange;
  }

  /** The context depends on the rows alone. */
  lemma {:induction false} ContextAttached(rows: seq<Row>, words: WordsBySeq, r: Request)
    ensures SelectContext(Attach(rows, words), r) == Attach(ContextRows(rows, r), words)
  {
    hide SelectContext, BySeqWindow, ByOverlap, Attach, RowsInRange, OverlapRange;
    var segments := Attach(rows, words);
    if r.firstSeq.Some? && r.lastSeq.Some? {
      WindowIsRange(rows, words, r.firstSeq.value, r.lastSeq.value);
      if RowsInRange(rows, r.firstSeq.value - 2, r.lastSeq.value + 2) != [] {
        ContextIsWindow(segments, r);
        return;
      }
    }
    ContextIsOverlap(segments, r);
    OverlapAttach(rows, words, r.adStart, r.adEnd);
    var range := OverlapRange(rows, r.adStart, r.adEnd);
    SlicesSame(rows, words, range.0, range.1);
  }

  /** What the lazy path makes of the stored array: all of it, or nothing when some entry has no number. */
  function Parsed(entries: seq<WordEntry>): seq<WordEntry> {
    if AllNumbered(entries) then entries else []
  }

  /** On a wanted number the lazy query gives the parsed words. */
  lemma {:induction false} WantedAgree(row: Row, entries: seq<WordEntry>, wanted: set<int>)
    requires row.seqNum in wanted
    ensures AttachOne(row, WantedWords(entries, wanted)) == AttachOne(row, AllWords(Parsed(entries)))
  {
    if AllNumbered(entries) {
      AllWordsPick(entries, wanted, row.seqNum);
    }
  }

  /** Where a phrase is looked up, the context carries the parsed words. */
  lemma {:induction false} ContextWords(rows: seq<Row>, entries: seq<WordEntry>, r: Request)
    ensures Attach(ContextRows(rows, r), WantedWords(entries, Wanted(rows, r)))
         == Attach(ContextRows(rows, r), AllWords(Parsed(entries)))
  {
    hide ContextRows, SelectContext, WantedWords, AllWords;
    var context, wanted := ContextRows(rows, r), Wanted(rows, r);
    ContextAttached(rows, map[], r);
    var bare := Attach(context, map[]);
    forall i | 0 <= i < |context|
      ensures AttachOne(context[i], WantedWords(entries, wanted)) == AttachOne(context[i], AllWords(Parsed(entries)))
    {
      assert bare[i].row == context[i] && bare[i].row.seqNum in SeqNums(bare);
      WantedAgree(context[i], entries, wanted);
    }
  }

  /** A named segment is found with the row, and where a phrase is looked up with the words, it is stored with. */
  lemma {:induction false} NamedAgree(ops: TextOps, rows: seq<Row>, entries: seq<WordEntry>, r: Request,
                                      seqNum: Option<int>)
    requires seqNum == r.startSeq || seqNum == r.endSeq
    ensures var lazy := FindSegment(Attach(rows, LazyWords(ops, rows, entries, r)), seqNum);
            var parsed := FindSegment(Attach(rows, AllWords(Parsed(entries))), seqNum);
            && (lazy.Some? <==> FindRow(rows, seqNum).Some?) && (parsed.Some? <==> FindRow(rows, seqNum).Some?)
            && (lazy.Some? ==> lazy.value.row == parsed.value.row)
            && (UsesPhrase(ops, r) ==> lazy == parsed)
  {
    FindAttached(rows, LazyWords(ops, rows, entries, r), seqNum);
    FindAttached(rows, AllWords(Parsed(entries)), seqNum);
    if FindRow(rows, seqNum).Some? && UsesPhrase(ops, r) {
      WantedAgree(FindRow(rows, seqNum).value, entries, Wanted(rows, r));
    }
  }

  lemma {:induction false} EndAgrees(ops: TextOps, a: seq<Segment>, b: seq<Segment>, ca: seq<Segment>, cb: seq<Segment>,
                                     r: Request)
    requires var x, y := FindSegment(a, r.endSeq), FindSegment(b, r.endSeq);
             (x.Some? <==> y.Some?) && (x.Some? ==> x.value.row == y.value.row)
    requires HasText(ops, r.endPhrase) ==> ca == cb && FindSegment(a, r.endSeq) == FindSegment(b, r.endSeq)
    ensures RefineEnd(ops, a, ca, r) == RefineEnd(ops, b, cb, r)
  {
  }

  lemma {:induction false} StartAgrees(ops: TextOps, a: seq<Segment>, b: seq<Segment>, ca: seq<Segment>,
                                       cb: seq<Segment>, r: Request)
    requires var x, y := FindSegment(a, r.startSeq), FindSegment(b, r.startSeq);
             (x.Some? <==> y.Some?) && (x.Some? ==> x.value.row == y.value.row)
    requires HasText(ops, r.startPhrase) ==> ca == cb && FindSegment(a, r.startSeq) == FindSegment(b, r.startSeq)
    requires (!HasText(ops, r.startPhrase) && FindSegment(a, r.startSeq).None?
              && (HasText(ops, r.startWord) || r.startWordIndex.Some?))
             ==> |a| == |b| && (a != [] ==> a[0].row == b[0].row)
    ensures RefineStart(ops, a, ca, r) == RefineStart(ops, b, cb, r)
  {
  }

  /** Loading words for the wanted segments only never shows: on every input the lazy path gives what the full
      path gives for the rows it loads and the words it parses. */
  lemma {:induction false} LazyIsFullOverLoaded(ops: TextOps, rows: seq<Row>, entries: seq<WordEntry>, r: Request)
    ensures ResolveLazy(ops, rows, entries, r) == ResolveFull(ops, LoadedRows(rows, r), Parsed(entries), r)
  {
    hide LoadedRows, Wanted, WantedWords, AllWords, Parsed, SelectContext, FindSegment, PhraseTime, WordTime,
      ContextRows;
    var loaded := LoadedRows(rows, r);
    var lazy, full := Attach(loaded, LazyWords(ops, loaded, entries, r)), Attach(loaded, AllWords(Parsed(entries)));
    NamedAgree(ops, loaded, entries, r, r.startSeq);
    NamedAgree(ops, loaded, entries, r, r.endSeq);
    if UsesPhrase(ops, r) {
      ContextWords(loaded, entries, r);
      ContextAttached(loaded, WantedWords(entries, Wanted(loaded, r)), r);
      ContextAttached(loaded, AllWords(Parsed(entries)), r);
    }
    EndAgrees(ops, lazy, full, SelectContext(lazy, r), SelectContext(full, r), r);
    StartAgrees(ops, lazy, full, SelectContext(lazy, r), SelectContext(full, r), r);
  }

  /** The window picks the same rows from the loaded ones as from the whole episode. */
  predicate SameContext(rows: seq<Row>, r: Request) {
    ContextRows(LoadedRows(rows, r), r) == ContextRows(rows, r)
  }

  /** A window that holds a segment does. */
  lemma {:induction false} WindowGivesSameContext(rows: seq<Row>, r: Request)
    requires WindowSelects(rows, r)
    ensures SameContext(rows, r)
  {
    if r.firstSeq.Some? && r.lastSeq.Some? {
      RangeOfRange(rows, QueryRange(r).0, QueryRange(r).1, r.firstSeq.value - 2, r.lastSeq.value + 2);
    }
  }

  /** What a caller can check: a phrase is looked up in the same rows and in an array of numbered entries, and
      a word only in a segment that exists or in a fully loaded episode. */
  predicate PathsComparable(ops: TextOps, rows: seq<Row>, entries: seq<WordEntry>, r: Request) {
    && (UsesPhrase(ops, r) ==> SameContext(rows, r) && AllNumbered(entries))
    && (FallsBackToFirst(ops, rows, r) ==> r.firstSeq.None? || r.lastSeq.None?)
  }

  /** A named segment is found in the loaded rows as in the whole episode. */
  lemma {:induction false} NamedLoaded(rows: seq<Row>, words: WordsBySeq, w: WordsBySeq, r: Request,
                                       seqNum: Option<int>)
    requires seqNum == r.startSeq || seqNum == r.endSeq
    ensures var lazy := FindSegment(Attach(LoadedRows(rows, r), words), seqNum);
            var full := FindSegment(Attach(rows, w), seqNum);
            && (lazy.Some? <==> FindRow(rows, seqNum).Some?) && (full.Some? <==> FindRow(rows, seqNum).Some?)
            && (lazy.Some? ==> lazy.value.row == full.value.row) && (words == w ==> lazy == full)
  {
    NamedIsLoaded(rows, r, seqNum);
    FindAttached(LoadedRows(rows, r), words, seqNum);
    FindAttached(rows, w, seqNum);
  }

  /** The lazily loaded path gives the same start, end, changed flags and errors as the full one. */
  lemma {:induction false} LazyEqualsFull(ops: TextOps, rows: seq<Row>, entries: seq<WordEntry>, r: Request)
    requires PathsComparable(ops, rows, entries, r)
    ensures ResolveLazy(ops, rows, entries, r) == ResolveFull(ops, rows, entries, r)
  {
    hide AllWords, SelectContext, FindSegment, PhraseTime, WordTime, ContextRows, ResolveLazy;
    LazyIsFullOverLoaded(ops, rows, entries, r);
    var words, w := AllWords(Parsed(entries)), AllWords(entries);
    var lazy, full := Attach(LoadedRows(rows, r), words), Attach(rows, w);
    NamedLoaded(rows, words, w, r, r.startSeq);
    NamedLoaded(rows, words, w, r, r.endSeq);
    ContextAttached(LoadedRows(rows, r), words, r);
    ContextAttached(rows, w, r);
    EndAgrees(ops, lazy, full, SelectContext(lazy, r), SelectContext(full, r), r);
    StartAgrees(ops, lazy, full, SelectContext(lazy, r), SelectContext(full, r), r);
  }

  lemma {:induction false} FallbackStart(ops: TextOps, segments: seq<Segment>, context: seq<Segment>, r: Request)
    requires !HasText(ops, r.startPhrase) && FindSegment(segments, r.startSeq).None?
    requires HasText(ops, r.startWord) || r.startWordIndex.Some?
    ensures RefineStart(ops, segments, context, r)
         == Boundary(ConstrainStart(if segments == [] then 0.0 else segments[0].row.start, r.adStart), true, None)
  {
  }

  /** In the fallback the full path starts from the episode's first segment and the lazy one from the
      first segment it loaded, so they agree exactly when the 30 s limit hides the difference. */
  lemma {:induction false} FallbackDiffers(ops: TextOps, rows: seq<Row>, entries: seq<WordEntry>, r: Request)
    requires FallsBackToFirst(ops, rows, r)
    ensures var first := if rows == [] then 0.0 else rows[0].start;
            var loaded := LoadedRows(rows, r);
            var nearest := if loaded == [] then 0.0 else loaded[0].start;
            var floor := r.adStart - MAX_START_EXTENSION;
            ResolveLazy(ops, rows, entries, r).start == ResolveFull(ops, rows, entries, r).start
            <==> first == nearest || (first <= floor && nearest <= floor)
  {
    var loaded := LoadedRows(rows, r);
    var full, lazy := Attach(rows, AllWords(entries)), Attach(loaded, LazyWords(ops, loaded, entries, r));
    NamedLoaded(rows, LazyWords(ops, loaded, entries, r), AllWords(entries), r, r.startSeq);
    FallbackStart(ops, full, SelectContext(full, r), r);
    FallbackStart(ops, lazy, SelectContext(lazy, r), r);
  }

  /** The time of the phrase in these rows with these words. */
  function StartPhraseTime(ops: TextOps, rows: seq<Row>, entries: seq<WordEntry>, r: Request): Option<real> {
    PhraseTime(ops, Attach(rows, AllWords(entries)), Attach(ContextRows(rows, r), AllWords(entries)), r.startSeq,
               r.startPhrase, false)
  }

  function EndPhraseTime(ops: TextOps, rows: seq<Row>, entries: seq<WordEntry>, r: Request): Option<real> {
    PhraseTime(ops, Attach(rows, AllWords(entries)), Attach(ContextRows(rows, r), AllWords(entries)), r.endSeq,
               r.endPhrase, true)
  }

  /** With a start phrase the paths agree on the start exactly when the loaded rows and parsed words place it where
      the whole episode does, or the 30 s limit hides the difference. */
  lemma {:induction false} PhraseStartsAgree(ops: TextOps, rows: seq<Row>, entries: seq<WordEntry>, r: Request)
    requires HasText(ops, r.startPhrase)
    ensures var lazy := StartPhraseTime(ops, LoadedRows(rows, r), Parsed(entries), r);
            var full, floor := StartPhraseTime(ops, rows, entries, r), r.adStart - MAX_START_EXTENSION;
            ResolveLazy(ops, rows, entries, r).start == ResolveFull(ops, rows, entries, r).start
            <==> lazy == full || (lazy.Some? && full.Some? && lazy.value <= floor && full.value <= floor)
  {
    hide AllWords, SelectContext, FindSegment, PhraseTime, WordTime, ContextRows, ResolveLazy;
    LazyIsFullOverLoaded(ops, rows, entries, r);
    ContextAttached(LoadedRows(rows, r), AllWords(Parsed(entries)), r);
    ContextAttached(rows, AllWords(entries), r);
  }

  /** The same for the end, with its limit of 15 s. */
  lemma {:induction false} PhraseEndsAgree(ops: TextOps, rows: seq<Row>, entries: seq<WordEntry>, r: Request)
    requires HasText(ops, r.endPhrase)
    ensures var lazy := EndPhraseTime(ops, LoadedRows(rows, r), Parsed(entries), r);
            var full, ceiling := EndPhraseTime(ops, rows, entries, r), r.adEnd + MAX_END_EXTENSION;
            ResolveLazy(ops, rows, entries, r).end == ResolveFull(ops, rows, entries, r).end
            <==> lazy == full || (lazy.Some? && full.Some? && ceiling <= lazy.value && ceiling <= full.value)
  {
    hide AllWords, SelectContext, FindSegment, PhraseTime, WordTime, ContextRows, ResolveLazy;
    LazyIsFullOverLoaded(ops, rows, entries, r);
    ContextAttached(LoadedRows(rows, r), AllWords(Parsed(entries)), r);
    ContextAttached(rows, AllWords(entries), r);
  }

  // ---------- inputs on which the paths differ ----------

  /** Texts of a single word, taken as they are. */
  const ONE_WORD := TextOps(s => [s], s => s, s => s, s => s, s => s != "")

  function LookFor(phrase: string, firstSeq: Option<int>, lastSeq: Option<int>): Request {
    Request(3.0, 8.0, firstSeq, lastSeq, None, Some(phrase), None, None, None, None, None)
  }

  /** A phrase of one word in an episode of one row. */
  lemma {:induction false} OneRowPhrase(row: Row, entries: seq<WordEntry>, r: Request, phrase: string)
    requires r == LookFor(phrase, r.firstSeq, r.lastSeq) && phrase != ""
    requires ContextRows([row], r) == [row]
    ensures StartPhraseTime(ONE_WORD, [row], entries, r)
         == PhraseTimeInSegment(ONE_WORD, AttachOne(row, AllWords(entries)), [phrase], false)
  {
    hide PhraseTimeInSegment, ContextRows, AllWords, Sort;
    var segment := AttachOne(row, AllWords(entries));
    assert Attach([row], AllWords(entries)) == [segment];
    OneCandidate(segment);
    OneWordSplit(phrase);
    OnlyCandidate(ONE_WORD, segment, [phrase]);
    assert FindSegment([segment], None) == None;
  }

  lemma {:induction false} OneCandidate(segment: Segment)
    ensures PhraseCandidates(None, [segment], None, false) == [segment]
  {
    SortOfOrdered(BySeqNum, [segment]);
    assert Others([segment][..0], None) == [];
  }

  lemma {:induction false} OnlyCandidate(ops: TextOps, segment: Segment, phrase: seq<string>)
    ensures FirstPhraseTime(ops, [segment], phrase, false) == PhraseTimeInSegment(ops, segment, phrase, false)
  {
    hide PhraseTimeInSegment;
    assert FirstPhraseTime(ops, [segment][1..], phrase, false) == None;
  }

  lemma {:induction false} OneWordSplit(text: string)
    ensures SplitLower(ONE_WORD, text) == [text]
  {
    assert ONE_WORD.splitWords(text) == [text] && ONE_WORD.lower(text) == text;
    assert [text][..0] == [] && LowerAll(ONE_WORD, []) == [];
  }

  lemma {:induction false} OverlapOfOne(row: Row, r: Request)
    requires Overlaps(row, r.adStart, r.adEnd)
    requires r.firstSeq.Some? && r.lastSeq.Some? ==> RowsInRange([row], r.firstSeq.value - 2, r.lastSeq.value + 2) == []
    ensures ContextRows([row], r) == [row]
  {
    var rows := [row];
    assert rows[0..1] == rows;
    assert OverlapRange(rows, r.adStart, r.adEnd) == (0, 1);
  }

  lemma {:induction false} SameWord(text: string, atEnd: bool)
    ensures FindPhraseMatch([text], [text], atEnd) == Some((0, 0))
  {
    hide FirstMatch, LastMatch;
    assert [text][..1] == [text] && [text][0..] == [text];
    assert [text][0..0 + 1] == [text];
    assert MatchesAt([text], [text], 0);
    assert FindSubsequence([text], [text], atEnd) == Some((0, 0));
  }

  lemma {:induction false} OtherWord(text: string, other: string, atEnd: bool)
    requires text != other
    ensures FindPhraseMatch([text], [other], atEnd) == None
  {
    LongestPartMatches([text], [other], atEnd, 1, 1, 0);
    assert [text][0..1] == [text] && [other][..1] == [other] && [other][0..] == [other] && [text][0] != [other][0];
  }

  /** One entry without a number: the full path skips it and finds the phrase at its stored time, the lazy path
      fails to parse the array and does not find it. */
  lemma {:induction false} UnnumberedEntryDiffers()
    ensures var rows := [Row(1, 0.0, 10.0, "other")];
            var entries := [WordEntry(Some(1), Some([Word("w", Some(5.0), Some(6.0))])), WordEntry(None, None)];
            var r := LookFor("w", None, None);
            && SameContext(rows, r) && !AllNumbered(entries)
            && ResolveFull(ONE_WORD, rows, entries, r).start == Boundary(5.0, true, None)
            && ResolveLazy(ONE_WORD, rows, entries, r).start == Boundary(3.0, false, Some("start_phrase_not_found"))
  {
    hide AllWords, StartPhraseTime, PhraseTimeInSegment, ContextRows, ResolveLazy, ResolveFull;
    var row, word := Row(1, 0.0, 10.0, "other"), Word("w", Some(5.0), Some(6.0));
    var entries, r := [WordEntry(Some(1), Some([word])), WordEntry(None, None)], LookFor("w", None, None);
    assert entries[1].seqNum.None?;
    assert "w"[0] != "other"[0];
    StoredWord(word);
    OverlapOfOne(row, r);
    OneRowPhrase(row, entries, r, "w");
    OneRowPhrase(row, [], r, "w");
    StoredTime(row, word, false);
    TextTimeMissing(row, "w", false);
    StartOfPhrase(ONE_WORD, [row], entries, r);
    LazyStartOfPhrase(ONE_WORD, [row], entries, r);
  }

  lemma {:induction false} StartOfPhrase(ops: TextOps, rows: seq<Row>, entries: seq<WordEntry>, r: Request)
    requires HasText(ops, r.startPhrase)
    ensures var t := StartPhraseTime(ops, rows, entries, r);
            ResolveFull(ops, rows, entries, r).start
            == if t.Some? then Boundary(ConstrainStart(t.value, r.adStart), true, None)
               else Boundary(r.adStart, false, Some("start_phrase_not_found"))
  {
    hide AllWords, SelectContext, FindSegment, PhraseTime, WordTime, ContextRows;
    ContextAttached(rows, AllWords(entries), r);
  }

  lemma {:induction false} LazyStartOfPhrase(ops: TextOps, rows: seq<Row>, entries: seq<WordEntry>, r: Request)
    requires HasText(ops, r.startPhrase)
    ensures var t := StartPhraseTime(ops, LoadedRows(rows, r), Parsed(entries), r);
            ResolveLazy(ops, rows, entries, r).start
            == if t.Some? then Boundary(ConstrainStart(t.value, r.adStart), true, None)
               else Boundary(r.adStart, false, Some("start_phrase_not_found"))
  {
    hide ResolveLazy, ResolveFull, StartPhraseTime;
    LazyIsFullOverLoaded(ops, rows, entries, r);
    StartOfPhrase(ops, LoadedRows(rows, r), Parsed(entries), r);
  }

  lemma {:induction false} StoredWord(word: Word)
    ensures AllWords([WordEntry(Some(1), Some([word])), WordEntry(None, None)]) == map[1 := [word]]
    ensures AllWords([]) == map[]
  {
    var entries := [WordEntry(Some(1), Some([word])), WordEntry(None, None)];
    assert entries[..1] == [entries[0]] && [entries[0]][..0] == [];
    assert AllWords([entries[0]]) == map[1 := [word]];
  }

  /** A stored word gives the phrase its time. */
  lemma {:induction false} StoredTime(row: Row, word: Word, atEnd: bool)
    requires word.text != "" && word.start.Some? && word.end.Some?
    ensures PhraseTimeInSegment(ONE_WORD, Segment(row, [word]), [word.text], atEnd)
         == if atEnd then word.end else word.start
  {
    assert [word][..0] == [];
    assert TimedWords(ONE_WORD, [word]) == [word];
    assert Texts([word]) == [word.text];
    SameWord(word.text, atEnd);
  }

  lemma {:induction false} TextTimeMissing(row: Row, phrase: string, atEnd: bool)
    requires row.text != phrase
    ensures PhraseTimeInSegment(ONE_WORD, Segment(row, []), [phrase], atEnd) == None
  {
    OneWordSplit(row.text);
    OtherWord(row.text, phrase, atEnd);
  }

  /** A window without a segment: the full path falls back to the overlapping run of the episode, the lazy path
      to that of the rows around the window, of which there are none. */
  lemma {:induction false} EmptyWindowDiffers()
    ensures var rows, r := [Row(1, 0.0, 10.0, "w")], LookFor("w", Some(100), Some(100));
            && !WindowSelects(rows, r) && AllNumbered([])
            && ResolveFull(ONE_WORD, rows, [], r).start == Boundary(0.0, true, None)
            && ResolveLazy(ONE_WORD, rows, [], r).start == Boundary(3.0, false, Some("start_phrase_not_found"))
  {
    hide StartPhraseTime, PhraseTimeInSegment, ContextRows, ResolveLazy, ResolveFull;
    var row, r := Row(1, 0.0, 10.0, "w"), LookFor("w", Some(100), Some(100));
    OutOfRange(row, 98, 102);
    OutOfRange(row, 96, 104);
    assert QueryRange(r) == (96, 104);
    OverlapOfOne(row, r);
    OneRowPhrase(row, [], r, "w");
    TextTime(row, false);
    NoRows(r);
    StartOfPhrase(ONE_WORD, [row], [], r);
    LazyStartOfPhrase(ONE_WORD, [row], [], r);
  }

  /** The text gives the phrase a time where no words are stored. */
  lemma {:induction false} TextTime(row: Row, atEnd: bool)
    requires row.start < row.end
    ensures PhraseTimeInSegment(ONE_WORD, Segment(row, []), [row.text], atEnd)
         == Some(if atEnd then row.end else row.start)
  {
    OneWordSplit(row.text);
    SameWord(row.text, atEnd);
  }

  lemma {:induction false} NoRows(r: Request)
    ensures StartPhraseTime(ONE_WORD, [], [], r) == None
  {
  }

  /** A word of a segment that does not exist: the full path starts from the first segment of the episode, the lazy
      path from the first one it loads. */
  lemma {:induction false} MissingSegmentDiffers()
    ensures var rows := [Row(1, 0.0, 10.0, "a"), Row(50, 100.0, 110.0, "b")];
            var r := Request(120.0, 130.0, Some(50), Some(50), Some(51), None, Some("c"), None, None, None, None);
            && !UsesPhrase(ONE_WORD, r) && FallsBackToFirst(ONE_WORD, rows, r)
            && ResolveLazy(ONE_WORD, rows, [], r).start != ResolveFull(ONE_WORD, rows, [], r).start
  {
    var rows := [Row(1, 0.0, 10.0, "a"), Row(50, 100.0, 110.0, "b")];
    var r := Request(120.0, 130.0, Some(50), Some(50), Some(51), None, Some("c"), None, None, None, None);
    hide RowsInRange, FindRow, ResolveLazy, ResolveFull;
    SecondOfTwo(rows[0], rows[1], 46, 54, 51);
    FallbackDiffers(ONE_WORD, rows, [], r);
  }

  lemma {:induction false} SecondOfTwo(a: Row, b: Row, lo: int, hi: int, n: int)
    requires !(lo <= a.seqNum <= hi) && lo <= b.seqNum <= hi && n != a.seqNum && n != b.seqNum
    ensures RowsInRange([a, b], lo, hi) == [b] && FindRow([a, b], Some(n)) == None
  {
    OutOfRange(a, lo, hi);
    OtherNumber(a, n);
    assert [a, b][..1] == [a];
  }

  lemma {:induction false} OutOfRange(row: Row, lo: int, hi: int)
    requires !(lo <= row.seqNum <= hi)
    ensures RowsInRange([row], lo, hi) == []
  {
    assert [row][..0] == [] && RowsInRange([], lo, hi) == [];
  }

  lemma {:induction false} OtherNumber(row: Row, n: int)
    requires n != row.seqNum
    ensures FindRow([row], Some(n)) == None
  {
    assert [row][..0] == [] && FindRow([], Some(n)) == None;
  }
}
