/** What the two word-boundary paths answer, stated on rows, stored words and texts. */
module WordAnswers {
  import opened Basics
  import opened Sorting
  import opened WordBoundary
  import opened WordGuard

  // ---------- where a phrase is ----------

  /** The first k words of the phrase, or its last k. */
  ghost predicate PartAt(words: seq<string>, phrase: seq<string>, atEnd: bool, k: nat, i: nat)
    requires k <= |phrase|
  {
    i + k <= |words| && words[i..i + k] == if atEnd then phrase[|phrase| - k..] else phrase[..k]
  }

  /** Words i to j are the longest part of the phrase, of at most four words, that occurs at all: the first such
      place for a start, the last for an end. */
  ghost predicate IsPlace(words: seq<string>, phrase: seq<string>, atEnd: bool, i: nat, j: nat) {
    i <= j < |words| && IsBest(words, phrase, atEnd, j + 1 - i, i)
  }

  ghost predicate IsBest(words: seq<string>, phrase: seq<string>, atEnd: bool, n: nat, i: nat) {
    && 1 <= n <= |phrase| && n <= 4
    && PartAt(words, phrase, atEnd, n, i)
    && (forall k: nat, m: nat :: n < k <= |phrase| && k <= 4 ==> !PartAt(words, phrase, atEnd, k, m))
    && (forall m: nat :: PartAt(words, phrase, atEnd, n, m) ==> if atEnd then m <= i else i <= m)
  }

  lemma {:induction false} PartMatches(words: seq<string>, phrase: seq<string>, atEnd: bool, k: nat, i: nat)
    requires k <= |phrase|
    ensures PartAt(words, phrase, atEnd, k, i) <==> MatchesAt(words, Part(phrase, atEnd, k), i)
  {
  }

  /** The place of a part that is found. */
  lemma {:induction false} ShrinkingPlace(words: seq<string>, phrase: seq<string>, atEnd: bool, k: nat)
    requires k <= |phrase|
    ensures var m := ShrinkingMatch(words, phrase, atEnd, k);
            m.Some? ==>
              var n := m.value.1 + 1 - m.value.0;
              && PartAt(words, phrase, atEnd, n, m.value.0)
              && forall i: nat :: PartAt(words, phrase, atEnd, n, i) ==>
                   if atEnd then i <= m.value.0 else m.value.0 <= i
  {
    hide MatchesAt, FirstMatch, LastMatch;
    if k > 0 {
      var part := Part(phrase, atEnd, k);
      var m := FindSubsequence(words, part, atEnd);
      if m.Some? {
        FoundFirstOrLast(words, part, atEnd);
        forall i: nat
          ensures PartAt(words, phrase, atEnd, k, i) <==> MatchesAt(words, part, i)
        {
          PartMatches(words, phrase, atEnd, k, i);
        }
      } else {
        ShrinkingPlace(words, phrase, atEnd, k - 1);
      }
    }
  }

  lemma {:induction false} FoundFirstOrLast(words: seq<string>, target: seq<string>, chooseLast: bool)
    ensures var m := FindSubsequence(words, target, chooseLast);
            m.Some? ==> forall i: nat :: MatchesAt(words, target, i) ==>
              if chooseLast then i <= m.value.0 else m.value.0 <= i
  {
    hide FirstMatch, LastMatch;
    var m := FindSubsequence(words, target, chooseLast);
    if m.Some? && chooseLast {
      forall i: nat | MatchesAt(words, target, i)
        ensures i <= m.value.0
      {
        assert i < |words| - |target| + 1;
      }
    }
  }

  lemma {:induction false} ShrinkingIsLongest(words: seq<string>, phrase: seq<string>, atEnd: bool, k: nat)
    requires k <= |phrase|
    ensures var m := ShrinkingMatch(words, phrase, atEnd, k);
            forall n: nat, i: nat :: 0 < n <= k && (m.Some? ==> m.value.1 + 1 - m.value.0 < n) ==>
              !PartAt(words, phrase, atEnd, n, i)
  {
    hide ShrinkingMatch;
    var m := ShrinkingMatch(words, phrase, atEnd, k);
    forall n: nat, i: nat | 0 < n <= k && (m.Some? ==> m.value.1 + 1 - m.value.0 < n)
      ensures !PartAt(words, phrase, atEnd, n, i)
    {
      LongestPartMatches(words, phrase, atEnd, k, n, i);
      PartMatches(words, phrase, atEnd, n, i);
    }
  }

  /** The search finds the place there is, and none where there is none. */
  lemma {:induction false} PlaceFound(words: seq<string>, phrase: seq<string>, atEnd: bool)
    ensures var m := FindPhraseMatch(words, phrase, atEnd);
            && (m.Some? ==> IsPlace(words, phrase, atEnd, m.value.0, m.value.1))
            && (forall i: nat, j: nat :: IsPlace(words, phrase, atEnd, i, j) ==> m == Some((i, j)))
  {
    hide ShrinkingMatch, PartAt;
    if words != [] && phrase != [] {
      var k := Min(|phrase|, 4);
      ShrinkingPlace(words, phrase, atEnd, k);
      ShrinkingIsLongest(words, phrase, atEnd, k);
      ShrinkingBound(words, phrase, atEnd, k);
      var m := ShrinkingMatch(words, phrase, atEnd, k);
      forall i: nat, j: nat | IsPlace(words, phrase, atEnd, i, j)
        ensures m == Some((i, j))
      {
        assert PartAt(words, phrase, atEnd, j + 1 - i, i);
      }
    }
  }

  lemma {:induction false} ShrinkingBound(words: seq<string>, phrase: seq<string>, atEnd: bool, k: nat)
    requires k <= |phrase|
    ensures var m := ShrinkingMatch(words, phrase, atEnd, k);
            m.Some? ==> m.value.0 <= m.value.1 < |words| && m.value.1 + 1 - m.value.0 <= k
  {
  }

  // ---------- the time a segment gives ----------

  /** The stored words that are left when those without a token are skipped, in their order. */
  ghost predicate IsKept(ops: TextOps, words: seq<Word>, timed: seq<Word>, at: seq<nat>) {
    && |at| == |timed|
    && (forall k :: 0 <= k < |at| ==> at[k] < |words| && IsToken(ops, words[at[k]], timed[k]))
    && (forall k, m :: 0 <= k < m < |at| ==> at[k] < at[m])
    && (forall n :: 0 <= n < |words| && ops.normalizeLower(words[n].text) != "" ==> n in at)
  }

  ghost predicate IsToken(ops: TextOps, word: Word, token: Word) {
    token == word.(text := ops.normalizeLower(word.text)) && token.text != ""
  }

  lemma {:induction false} TimedKept(ops: TextOps, words: seq<Word>) returns (at: seq<nat>)
    ensures IsKept(ops, words, TimedWords(ops, words), at)
  {
    if words == [] {
      at := [];
    } else {
      hide IsKept;
      var n := |words| - 1;
      var init, last := words[..n], words[n];
      at := TimedKept(ops, init);
      assert words == init + [last];
      KeptLast(ops, init, last, TimedWords(ops, init), at);
      if ops.normalizeLower(last.text) != "" {
        at := at + [n];
      }
    }
  }

  /** One more word is kept, or not. */
  lemma {:induction false} KeptLast(ops: TextOps, init: seq<Word>, last: Word, timed: seq<Word>, at: seq<nat>)
    requires IsKept(ops, init, timed, at)
    ensures ops.normalizeLower(last.text) == "" ==> IsKept(ops, init + [last], timed, at)
    ensures var token := last.(text := ops.normalizeLower(last.text));
            token.text != "" ==> IsKept(ops, init + [last], timed + [token], at + [|init|])
  {
    var all, more := init + [last], at + [|init|];
    assert forall i :: 0 <= i < |init| ==> all[i] == init[i];
    assert forall i :: i in at ==> i in more;
    assert more[|at|] == |init| && all[|init|] == last;
  }

  lemma {:induction false} TextsAre(words: seq<Word>)
    ensures forall k :: 0 <= k < |words| ==> Texts(words)[k] == words[k].text
  {
    if words != [] {
      TextsAre(words[..|words| - 1]);
    }
  }

  /** A phrase in the stored words: the start of its first word there, or the end of its last. */
  lemma {:induction false} StoredPhrase(ops: TextOps, segment: Segment, kept: seq<Word>, at: seq<nat>,
                                        words: seq<string>, phrase: seq<string>, atEnd: bool, i: nat, j: nat)
    requires IsKept(ops, segment.words, kept, at)
    requires |words| == |kept| && forall k :: 0 <= k < |kept| ==> words[k] == kept[k].text
    requires IsPlace(words, phrase, atEnd, i, j)
    ensures var time := if atEnd then segment.words[at[j]].end else segment.words[at[i]].start;
            time.Some? ==> PhraseTimeInSegment(ops, segment, phrase, atEnd) == time
  {
    hide IsPlace;
    PlaceInside(words, phrase, atEnd, i, j);
    var timed := TimedWords(ops, segment.words);
    var own := TimedKept(ops, segment.words);
    SameKept(ops, segment.words, kept, at, timed, own);
    TextsAre(timed);
    assert Texts(timed) == words;
    PlaceFound(words, phrase, atEnd);
  }

  lemma {:induction false} PlaceInside(words: seq<string>, phrase: seq<string>, atEnd: bool, i: nat, j: nat)
    requires IsPlace(words, phrase, atEnd, i, j)
    ensures i <= j < |words|
  {
  }

  lemma {:induction false} SameKept(ops: TextOps, words: seq<Word>, a: seq<Word>, at: seq<nat>, b: seq<Word>,
                                    bt: seq<nat>)
    requires IsKept(ops, words, a, at) && IsKept(ops, words, b, bt)
    ensures a == b && at == bt
  {
    forall n
      ensures n in at <==> n in bt
    {
    }
    IncreasingSame(at, bt);
  }

  lemma {:induction false} IncreasingSame(a: seq<nat>, b: seq<nat>)
    requires forall k, m :: 0 <= k < m < |a| ==> a[k] < a[m]
    requires forall k, m :: 0 <= k < m < |b| ==> b[k] < b[m]
    requires forall n :: n in a <==> n in b
    ensures a == b
    decreases |a|
  {
    var known := b == [] || b[0] in a;
    if a != [] {
      assert a[|a| - 1] in b;
      assert b[|b| - 1] in a;
      var x, y := a[|a| - 1], b[|b| - 1];
      var i :| 0 <= i < |b| && b[i] == x;
      var j :| 0 <= j < |a| && a[j] == y;
      assert x == y;
      var c, d := a[..|a| - 1], b[..|b| - 1];
      forall n
        ensures n in c <==> n in d
      {
        LastOf(a, n);
        LastOf(b, n);
        assert n in a <==> n in b;
      }
      IncreasingSame(c, d);
    }
  }

  lemma {:induction false} LastOf(a: seq<nat>, n: nat)
    requires a != [] && forall k, m :: 0 <= k < m < |a| ==> a[k] < a[m]
    ensures n in a[..|a| - 1] <==> n in a && n != a[|a| - 1]
  {
    assert a == a[..|a| - 1] + [a[|a| - 1]];
    if n in a[..|a| - 1] {
      var i :| 0 <= i < |a| - 1 && a[i] == n;
    }
  }

  lemma {:induction false} LowerAre(ops: TextOps, words: seq<string>)
    ensures |LowerAll(ops, words)| == |words|
    ensures forall k :: 0 <= k < |words| ==> LowerAll(ops, words)[k] == ops.lower(words[k])
  {
    if words != [] {
      LowerAre(ops, words[..|words| - 1]);
    }
  }

  /** The stored words give the phrase no time: it is not among them, or its place carries none. */
  ghost predicate Untimed(words: seq<Word>, at: seq<nat>, texts: seq<string>, phrase: seq<string>, atEnd: bool) {
    forall i: nat, j: nat :: IsPlace(texts, phrase, atEnd, i, j) && j < |at| && at[i] < |words| && at[j] < |words| ==>
      if atEnd then words[at[j]].end.None? else words[at[i]].start.None?
  }

  lemma {:induction false} UntimedExact(ops: TextOps, segment: Segment, kept: seq<Word>, at: seq<nat>,
                                        texts: seq<string>, phrase: seq<string>, atEnd: bool)
    requires IsKept(ops, segment.words, kept, at)
    requires |texts| == |kept| && forall k :: 0 <= k < |kept| ==> texts[k] == kept[k].text
    requires Untimed(segment.words, at, texts, phrase, atEnd)
    ensures ExactTime(ops, segment, phrase, atEnd).None?
  {
    hide IsPlace;
    var timed := TimedWords(ops, segment.words);
    var own := TimedKept(ops, segment.words);
    SameKept(ops, segment.words, kept, at, timed, own);
    TextsAre(timed);
    assert Texts(timed) == texts;
    PlaceFound(texts, phrase, atEnd);
  }

  /** The lower-cased words of the segment's text. */
  ghost predicate IsText(ops: TextOps, segment: Segment, words: seq<string>) {
    var split := ops.splitWords(segment.row.text);
    |words| == |split| && forall k :: 0 <= k < |words| ==> words[k] == ops.lower(split[k])
  }

  lemma {:induction false} TextIs(ops: TextOps, segment: Segment, words: seq<string>)
    requires IsText(ops, segment, words)
    ensures SplitLower(ops, segment.row.text) == words
  {
    LowerAre(ops, ops.splitWords(segment.row.text));
  }

  /** The end of the k-th of n equal parts of the row, which starts with the end of part zero. */
  function EvenTime(row: Row, k: nat, n: nat): real
    requires 0 < n
  {
    row.start + (row.end - row.start) * k as real / n as real
  }

  /** Without a stored time, the words of the text share the segment evenly: a phrase starts with the part of its
      first word, and ends with the part of its last. */
  lemma {:induction false} SpreadPhrase(ops: TextOps, segment: Segment, words: seq<string>, phrase: seq<string>,
                                        atEnd: bool, i: nat, j: nat)
    requires ExactTime(ops, segment, phrase, atEnd).None? && segment.row.start < segment.row.end
    requires IsText(ops, segment, words) && IsPlace(words, phrase, atEnd, i, j)
    ensures PhraseTimeInSegment(ops, segment, phrase, atEnd)
         == Some(EvenTime(segment.row, if atEnd then j + 1 else i, |words|))
  {
    hide IsPlace, ExactTime, IsText, PhraseTimeInSegment, EvenTime;
    PlaceInside(words, phrase, atEnd, i, j);
    TextIs(ops, segment, words);
    PlaceFound(words, phrase, atEnd);
    SpreadTime(ops, segment, words, phrase, atEnd, i, j);
  }

  lemma {:induction false} SpreadTime(ops: TextOps, segment: Segment, words: seq<string>, phrase: seq<string>,
                                      atEnd: bool, i: nat, j: nat)
    requires ExactTime(ops, segment, phrase, atEnd).None? && segment.row.start < segment.row.end
    requires SplitLower(ops, segment.row.text) == words && words != []
    requires FindPhraseMatch(words, phrase, atEnd) == Some((i, j))
    ensures PhraseTimeInSegment(ops, segment, phrase, atEnd)
         == Some(EvenTime(segment.row, if atEnd then j + 1 else i, |words|))
  {
    hide EvenTime, FindPhraseMatch, PlaceTime;
    var row, k: nat := segment.row, if atEnd then j + 1 else i;
    assert MaxReal(row.end, row.start) == row.end;
    assert PhraseTimeInSegment(ops, segment, phrase, atEnd)
        == Some(PlaceTime(row.start, row.end, row.end - row.start, |words|, k));
    EvenPart(row, |words|, k);
  }

  lemma {:induction false} EvenPart(row: Row, n: nat, k: nat)
    requires row.start < row.end && k <= n && 0 < n
    ensures PlaceTime(row.start, row.end, row.end - row.start, n, k) == EvenTime(row, k, n)
  {
    TimesQuotient(row.end - row.start, k as real, n as real);
  }

  lemma {:induction false} TimesQuotient(length: real, a: real, b: real)
    requires 0.0 < length && 0.0 <= a <= b && 0.0 < b
    ensures a * (length / b) == length * a / b <= length
  {
    var part := length / b;
    assert part * b == length;
    assert (a * part) * b == length * a;
    assert a * part <= b * part;
  }

  /** No stored time, and no part of the phrase in the text: no time. */
  lemma {:induction false} NoPhrase(ops: TextOps, segment: Segment, words: seq<string>, phrase: seq<string>,
                                    atEnd: bool)
    requires ExactTime(ops, segment, phrase, atEnd).None? && IsText(ops, segment, words)
    requires forall i: nat, j: nat :: !IsPlace(words, phrase, atEnd, i, j)
    ensures PhraseTimeInSegment(ops, segment, phrase, atEnd).None?
  {
    hide IsPlace, ExactTime, IsText;
    TextIs(ops, segment, words);
    PlaceFound(words, phrase, atEnd);
  }

  // ---------- the segment that answers ----------

  /** The words stored for a number: those of the last entry that has the number and words, or none. */
  lemma {:induction false} StoredWords(entries: seq<WordEntry>, row: Row, k: nat)
    requires k <= |entries|
    requires k < |entries| ==> Carries(entries[k], row.seqNum)
    requires forall m :: 0 <= m < |entries| && (k < m || k == |entries|) ==> !Carries(entries[m], row.seqNum)
    ensures AttachOne(row, AllWords(entries))
         == Segment(row, if k < |entries| then entries[k].words.value else [])
  {
    if entries != [] {
      var n := |entries| - 1;
      if k == n {
        assert Carries(entries[n], row.seqNum);
      } else {
        assert !Carries(entries[n], row.seqNum);
        StoredWords(entries[..n], row, if k == |entries| then n else k);
      }
    }
  }

  predicate Carries(e: WordEntry, n: int) {
    e.seqNum == Some(n) && e.words.Some? && e.words.value != []
  }

  function TimeIn(ops: TextOps, entries: seq<WordEntry>, row: Row, phrase: seq<string>, atEnd: bool): Option<real> {
    PhraseTimeInSegment(ops, AttachOne(row, AllWords(entries)), phrase, atEnd)
  }

  /** The row is searched before, or is, the other one: by number upwards for a start, downwards for an end. */
  predicate Before(a: Row, b: Row, atEnd: bool) {
    if atEnd then b.seqNum < a.seqNum else a.seqNum < b.seqNum
  }

  /** The row that answers: the named one if it has the phrase, or else the first of the context that has it. */
  ghost predicate Answers(ops: TextOps, rows: seq<Row>, entries: seq<WordEntry>, r: Request, named: Option<int>,
                          phrase: seq<string>, atEnd: bool, x: Row)
  {
    && TimeIn(ops, entries, x, phrase, atEnd).Some?
    && (|| (x in rows && Some(x.seqNum) == named)
        || (x in ContextRows(rows, r) && Some(x.seqNum) != named
            && (forall y :: y in rows && Some(y.seqNum) == named ==> TimeIn(ops, entries, y, phrase, atEnd).None?)
            && (forall y :: y in ContextRows(rows, r) && Some(y.seqNum) != named && Before(y, x, atEnd) ==>
                  TimeIn(ops, entries, y, phrase, atEnd).None?)))
  }

  lemma {:induction false} FirstInOrder(ops: TextOps, rest: seq<Segment>, phrase: seq<string>, atEnd: bool, i: nat)
    requires i < |rest| && PhraseTimeInSegment(ops, rest[i], phrase, atEnd).Some?
    requires forall k :: 0 <= k < i ==> PhraseTimeInSegment(ops, rest[k], phrase, atEnd).None?
    ensures FirstPhraseTime(ops, rest, phrase, atEnd) == PhraseTimeInSegment(ops, rest[i], phrase, atEnd)
  {
    hide PhraseTimeInSegment;
    if i > 0 {
      FirstInOrder(ops, rest[1..], phrase, atEnd, i - 1);
    }
  }

  /** A phrase has the time it has in the row that answers. */
  lemma {:induction false} AnswerTime(ops: TextOps, rows: seq<Row>, entries: seq<WordEntry>, r: Request,
                                      named: Option<int>, text: string, phrase: seq<string>, atEnd: bool, x: Row)
    requires Distinct(rows) && phrase == SplitLower(ops, text) && phrase != []
    requires Answers(ops, rows, entries, r, named, phrase, atEnd, x)
    ensures var w := AllWords(entries);
            PhraseTime(ops, Attach(rows, w), Attach(ContextRows(rows, r), w), named, Some(text), atEnd)
            == TimeIn(ops, entries, x, phrase, atEnd)
  {
    hide PhraseTimeInSegment, ContextRows, Distinct, AllWords, SplitLower, Sort, Others, Reverse, FindRow;
    var w, context := AllWords(entries), ContextRows(rows, r);
    FindAttached(rows, w, named);
    FoundIsNamed(rows, named);
    if x in rows && Some(x.seqNum) == named {
      SameRow(rows, FindRow(rows, named).value, x);
      NamedFirst(ops, AttachOne(x, w), Rest(Attach(context, w), named, atEnd), phrase, atEnd);
    } else {
      RestOfRows(rows, w, r, named, atEnd);
      var rest := Rest(Attach(context, w), named, atEnd);
      AttachHas(context, w, AttachOne(x, w));
      RestHas(Attach(context, w), named, atEnd, AttachOne(x, w));
      var i :| 0 <= i < |rest| && rest[i] == AttachOne(x, w);
      forall k | 0 <= k < i
        ensures PhraseTimeInSegment(ops, rest[k], phrase, atEnd).None?
      {
        RestHas(Attach(context, w), named, atEnd, rest[k]);
        AttachHas(context, w, rest[k]);
        assert Before(rest[k].row, x, atEnd);
      }
      FirstInOrder(ops, rest, phrase, atEnd, i);
      if FindRow(rows, named).Some? {
        var y := FindRow(rows, named).value;
        NamedWithout(ops, AttachOne(y, w), rest, phrase, atEnd);
      }
    }
  }

  lemma {:induction false} FoundIsNamed(rows: seq<Row>, named: Option<int>)
    ensures FindRow(rows, named).Some? ==>
              FindRow(rows, named).value in rows && Some(FindRow(rows, named).value.seqNum) == named
    ensures forall x :: x in rows && Some(x.seqNum) == named ==> FindRow(rows, named).Some?
  {
    if FindRow(rows, named).Some? {
      FoundIn(rows, named);
    }
    forall x | x in rows && Some(x.seqNum) == named
      ensures FindRow(rows, named).Some?
    {
      NumberOf(rows, x);
      FoundHasNumber(rows, x.seqNum);
    }
  }

  lemma {:induction false} NamedFirst(ops: TextOps, s: Segment, rest: seq<Segment>, phrase: seq<string>, atEnd: bool)
    requires PhraseTimeInSegment(ops, s, phrase, atEnd).Some?
    ensures FirstPhraseTime(ops, [s] + rest, phrase, atEnd) == PhraseTimeInSegment(ops, s, phrase, atEnd)
  {
    hide PhraseTimeInSegment;
  }

  lemma {:induction false} NamedWithout(ops: TextOps, s: Segment, rest: seq<Segment>, phrase: seq<string>, atEnd: bool)
    requires PhraseTimeInSegment(ops, s, phrase, atEnd).None?
    ensures FirstPhraseTime(ops, [s] + rest, phrase, atEnd) == FirstPhraseTime(ops, rest, phrase, atEnd)
  {
    hide PhraseTimeInSegment;
    assert ([s] + rest)[1..] == rest;
  }

  /** Without a searched row that has the phrase it has no time. */
  lemma {:induction false} NoAnswer(ops: TextOps, rows: seq<Row>, entries: seq<WordEntry>, r: Request,
                                    named: Option<int>, text: string, phrase: seq<string>, atEnd: bool)
    requires phrase == SplitLower(ops, text)
    requires forall y :: (y in rows && Some(y.seqNum) == named) || y in ContextRows(rows, r) ==>
               TimeIn(ops, entries, y, phrase, atEnd).None?
    ensures var w := AllWords(entries);
            PhraseTime(ops, Attach(rows, w), Attach(ContextRows(rows, r), w), named, Some(text), atEnd).None?
  {
    hide PhraseTimeInSegment, ContextRows, AllWords, SplitLower, PhraseCandidates, FindRow;
    var w, context := AllWords(entries), ContextRows(rows, r);
    var preferred := FindSegment(Attach(rows, w), named);
    FindAttached(rows, w, named);
    FoundIsNamed(rows, named);
    var candidates := PhraseCandidates(preferred, Attach(context, w), named, atEnd);
    forall s | s in candidates
      ensures PhraseTimeInSegment(ops, s, phrase, atEnd).None?
    {
      CandidatesHas(preferred, Attach(context, w), named, atEnd, s);
      AttachHas(context, w, s);
    }
    TimeOfSome(ops, candidates, phrase, atEnd);
  }

  // ---------- the answers ----------

  /** Without a start phrase the start is that of the named segment, at most 30 s before the ad's. */
  lemma {:induction false} NamedStart(ops: TextOps, rows: seq<Row>, entries: seq<WordEntry>, r: Request, row: Row)
    requires Distinct(rows) && row in rows && r.startSeq == Some(row.seqNum) && !HasText(ops, r.startPhrase)
    ensures var time := if row.start < r.adStart - 30.0 then r.adStart - 30.0 else row.start;
            && ResolveFull(ops, rows, entries, r).start == Boundary(time, time != r.adStart, None)
            && ResolveLazy(ops, rows, entries, r).start == Boundary(time, time != r.adStart, None)
  {
    hide AllWords, SelectContext, PhraseTime, WordTime, LoadedRows, LazyWords, FindRow, FindSegment;
    FoundIsNamed(rows, r.startSeq);
    SameRow(rows, FindRow(rows, r.startSeq).value, row);
    NamedLoaded(rows, LazyWords(ops, LoadedRows(rows, r), entries, r), AllWords(entries), r, r.startSeq);
    FindAttached(rows, AllWords(entries), r.startSeq);
  }

  /** Without an end phrase the end is that of the named segment, at most 15 s behind the ad's. */
  lemma {:induction false} NamedEnd(ops: TextOps, rows: seq<Row>, entries: seq<WordEntry>, r: Request, row: Row)
    requires Distinct(rows) && row in rows && r.endSeq == Some(row.seqNum) && !HasText(ops, r.endPhrase)
    ensures var time := if r.adEnd + 15.0 < row.end then r.adEnd + 15.0 else row.end;
            && ResolveFull(ops, rows, entries, r).end == Boundary(time, time != r.adEnd, None)
            && ResolveLazy(ops, rows, entries, r).end == Boundary(time, time != r.adEnd, None)
  {
    hide AllWords, SelectContext, PhraseTime, WordTime, LoadedRows, LazyWords, FindRow, FindSegment;
    FoundIsNamed(rows, r.endSeq);
    SameRow(rows, FindRow(rows, r.endSeq).value, row);
    NamedLoaded(rows, LazyWords(ops, LoadedRows(rows, r), entries, r), AllWords(entries), r, r.endSeq);
    FindAttached(rows, AllWords(entries), r.endSeq);
  }

  /** Where no segment is named, or none of that number exists, and no phrase is given: the ad's own boundaries, but
      for a start by word, which is the episode's first segment's, at most 30 s before the ad's. */
  lemma {:induction false} NothingNamed(ops: TextOps, rows: seq<Row>, entries: seq<WordEntry>, r: Request)
    ensures !HasText(ops, r.startPhrase) && (forall row :: row in rows ==> Some(row.seqNum) != r.startSeq) ==>
              ResolveFull(ops, rows, entries, r).start
              == if HasText(ops, r.startWord) || r.startWordIndex.Some? then
                   var first := if rows == [] then 0.0 else rows[0].start;
                   Boundary(if first < r.adStart - 30.0 then r.adStart - 30.0 else first, true, None)
                 else Boundary(r.adStart, false, None)
    ensures !HasText(ops, r.endPhrase) && (forall row :: row in rows ==> Some(row.seqNum) != r.endSeq) ==>
              ResolveFull(ops, rows, entries, r).end == Boundary(r.adEnd, false, None)
  {
    hide AllWords, SelectContext, PhraseTime, FindRow, FindSegment, ContextRows;
    FoundIsNamed(rows, r.startSeq);
    FoundIsNamed(rows, r.endSeq);
    FindAttached(rows, AllWords(entries), r.startSeq);
    FindAttached(rows, AllWords(entries), r.endSeq);
  }

  /** The start by a phrase: its time in the row that answers, at most 30 s before the ad's. */
  lemma {:induction false} PhraseStart(ops: TextOps, rows: seq<Row>, entries: seq<WordEntry>, r: Request,
                                       phrase: seq<string>, x: Row)
    requires Distinct(rows) && HasText(ops, r.startPhrase) && phrase == SplitLower(ops, r.startPhrase.value)
    requires phrase != [] && Answers(ops, rows, entries, r, r.startSeq, phrase, false, x)
    ensures var t := TimeIn(ops, entries, x, phrase, false).value;
            ResolveFull(ops, rows, entries, r).start
            == Boundary(if t < r.adStart - 30.0 then r.adStart - 30.0 else t, true, None)
  {
    hide PhraseTime, ContextRows, AllWords, SplitLower, Answers, TimeIn, ResolveFull;
    AnswerTime(ops, rows, entries, r, r.startSeq, r.startPhrase.value, phrase, false, x);
    AnswerHasTime(ops, rows, entries, r, r.startSeq, phrase, false, x);
    StartOfPhrase(ops, rows, entries, r);
  }

  lemma {:induction false} AnswerHasTime(ops: TextOps, rows: seq<Row>, entries: seq<WordEntry>, r: Request,
                                         named: Option<int>, phrase: seq<string>, atEnd: bool, x: Row)
    requires Answers(ops, rows, entries, r, named, phrase, atEnd, x)
    ensures TimeIn(ops, entries, x, phrase, atEnd).Some?
  {
  }

  /** The end by a phrase: its time in the row that answers, at most 15 s behind the ad's. */
  lemma {:induction false} PhraseEnd(ops: TextOps, rows: seq<Row>, entries: seq<WordEntry>, r: Request,
                                     phrase: seq<string>, x: Row)
    requires Distinct(rows) && HasText(ops, r.endPhrase) && phrase == SplitLower(ops, r.endPhrase.value)
    requires phrase != [] && Answers(ops, rows, entries, r, r.endSeq, phrase, true, x)
    ensures var t := TimeIn(ops, entries, x, phrase, true).value;
            ResolveFull(ops, rows, entries, r).end
            == Boundary(if r.adEnd + 15.0 < t then r.adEnd + 15.0 else t, true, None)
  {
    hide PhraseTime, ContextRows, AllWords, SplitLower, Answers, TimeIn, ResolveFull;
    AnswerTime(ops, rows, entries, r, r.endSeq, r.endPhrase.value, phrase, true, x);
    AnswerHasTime(ops, rows, entries, r, r.endSeq, phrase, true, x);
    EndOfPhrase(ops, rows, entries, r);
  }

  lemma {:induction false} EndOfPhrase(ops: TextOps, rows: seq<Row>, entries: seq<WordEntry>, r: Request)
    requires HasText(ops, r.endPhrase)
    ensures var t := EndPhraseTime(ops, rows, entries, r);
            ResolveFull(ops, rows, entries, r).end
            == if t.Some? then Boundary(ConstrainEnd(t.value, r.adEnd), true, None)
               else Boundary(r.adEnd, false, Some("end_phrase_not_found"))
  {
    hide AllWords, SelectContext, FindSegment, PhraseTime, ContextRows;
    ContextAttached(rows, AllWords(entries), r);
  }

  /** A phrase that no searched row has leaves the boundary where it was, with its error. */
  lemma {:induction false} PhraseMissing(ops: TextOps, rows: seq<Row>, entries: seq<WordEntry>, r: Request)
    ensures HasText(ops, r.startPhrase)
            && (forall y :: (y in rows && Some(y.seqNum) == r.startSeq) || y in ContextRows(rows, r) ==>
                  TimeIn(ops, entries, y, SplitLower(ops, r.startPhrase.value), false).None?)
            ==> ResolveFull(ops, rows, entries, r).start
                == Boundary(r.adStart, false, Some("start_phrase_not_found"))
    ensures HasText(ops, r.endPhrase)
            && (forall y :: (y in rows && Some(y.seqNum) == r.endSeq) || y in ContextRows(rows, r) ==>
                  TimeIn(ops, entries, y, SplitLower(ops, r.endPhrase.value), true).None?)
            ==> ResolveFull(ops, rows, entries, r).end == Boundary(r.adEnd, false, Some("end_phrase_not_found"))
  {
    hide PhraseTime, ContextRows, AllWords, SplitLower, TimeIn, ResolveFull;
    if HasText(ops, r.startPhrase)
       && forall y :: (y in rows && Some(y.seqNum) == r.startSeq) || y in ContextRows(rows, r) ==>
            TimeIn(ops, entries, y, SplitLower(ops, r.startPhrase.value), false).None? {
      NoAnswer(ops, rows, entries, r, r.startSeq, r.startPhrase.value, SplitLower(ops, r.startPhrase.value), false);
      StartOfPhrase(ops, rows, entries, r);
    }
    if HasText(ops, r.endPhrase)
       && forall y :: (y in rows && Some(y.seqNum) == r.endSeq) || y in ContextRows(rows, r) ==>
            TimeIn(ops, entries, y, SplitLower(ops, r.endPhrase.value), true).None? {
      NoAnswer(ops, rows, entries, r, r.endSeq, r.endPhrase.value, SplitLower(ops, r.endPhrase.value), true);
      EndOfPhrase(ops, rows, entries, r);
    }
  }
}
