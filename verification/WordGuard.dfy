/** When the lazy word-boundary path finds a phrase where the full one does, whatever the transcript says: a guard
    on sequence numbers alone, and its exactness over all texts and words. */
module WordGuard {
  import opened Basics
  import opened Sorting
  import opened WordBoundary

  // ---------- the guard ----------

  /** Rows with different numbers. */
  ghost predicate Distinct(rows: seq<Row>) {
    forall i, j :: 0 <= i < j < |rows| ==> rows[i].seqNum != rows[j].seqNum
  }

  predicate Searches(rows: seq<Row>, r: Request, named: Option<int>, n: int) {
    (named == Some(n) && FindRow(rows, named).Some?) || HasNumber(ContextRows(rows, r), n)
  }

  predicate HasNumber(rows: seq<Row>, n: int) {
    exists i :: 0 <= i < |rows| && rows[i].seqNum == n
  }

  predicate Numbered(entries: seq<WordEntry>, n: int) {
    exists i :: 0 <= i < |entries| && entries[i].seqNum == Some(n)
  }

  /** Both paths look a phrase up in the segments of the same numbers, and if the array of words does not parse
      it has no words for any of them. */
  ghost predicate PhraseGuard(rows: seq<Row>, entries: seq<WordEntry>, r: Request, named: Option<int>) {
    && (forall n: int :: Searches(LoadedRows(rows, r), r, named, n) <==> Searches(rows, r, named, n))
    && (AllNumbered(entries) || forall n: int :: Searches(rows, r, named, n) ==> !Numbered(entries, n))
  }

  // ---------- the candidates ----------

  lemma {:induction false} ReverseHas(segments: seq<Segment>, s: Segment)
    ensures s in Reverse(segments) <==> s in segments
  {
    if segments != [] {
      var init, last := segments[..|segments| - 1], segments[|segments| - 1];
      assert segments == init + [last];
      ReverseHas(init, s);
    }
  }

  lemma {:induction false} OthersHas(segments: seq<Segment>, named: Option<int>, s: Segment)
    ensures s in Others(segments, named) <==> s in segments && Some(s.row.seqNum) != named
  {
    if segments != [] {
      var init, last := segments[..|segments| - 1], segments[|segments| - 1];
      assert segments == init + [last];
      OthersHas(init, named, s);
    }
  }

  /** The phrase has a time exactly when some candidate gives it one. */
  lemma {:induction false} TimeOfSome(ops: TextOps, candidates: seq<Segment>, phrase: seq<string>, atEnd: bool)
    ensures FirstPhraseTime(ops, candidates, phrase, atEnd).Some?
            <==> exists s :: s in candidates && PhraseTimeInSegment(ops, s, phrase, atEnd).Some?
  {
    hide PhraseTimeInSegment;
    if candidates != [] {
      TimeOfSome(ops, candidates[1..], phrase, atEnd);
      assert candidates == [candidates[0]] + candidates[1..];
    }
  }

  // ---------- the guard suffices ----------

  /** Strictly increasing, or decreasing, numbers. */
  ghost predicate Strict(segments: seq<Segment>, down: bool) {
    forall i, j :: 0 <= i < j < |segments| ==>
      if down then segments[j].row.seqNum < segments[i].row.seqNum
      else segments[i].row.seqNum < segments[j].row.seqNum
  }

  lemma {:induction false} StrictSame(a: seq<Segment>, b: seq<Segment>, down: bool)
    requires Strict(a, down) && Strict(b, down) && forall s :: s in a <==> s in b
    ensures a == b
    decreases |a|
  {
    var known := b == [] || b[0] in a;
    if a != [] {
      assert a[|a| - 1] in b;
      assert b[|b| - 1] in a;
      var x, y := a[|a| - 1], b[|b| - 1];
      var i :| 0 <= i < |b| && b[i] == x;
      var j :| 0 <= j < |a| && a[j] == y;
      assert i < |b| - 1 ==> j == |a| - 1 || x == y;
      assert x == y;
      var c, d := a[..|a| - 1], b[..|b| - 1];
      forall s
        ensures s in c <==> s in d
      {
        LastOnce(a, down, s);
        LastOnce(b, down, s);
        assert s in a <==> s in b;
      }
      StrictSame(c, d, down);
    }
  }

  lemma {:induction false} LastOnce(a: seq<Segment>, down: bool, s: Segment)
    requires Strict(a, down) && a != []
    ensures s in a[..|a| - 1] <==> s in a && s != a[|a| - 1]
  {
    assert a == a[..|a| - 1] + [a[|a| - 1]];
    if s in a[..|a| - 1] {
      var i :| 0 <= i < |a| - 1 && a[i] == s;
    }
  }

  lemma {:induction false} ReverseStrict(segments: seq<Segment>)
    requires Strict(segments, false)
    ensures Strict(Reverse(segments), true) && |Reverse(segments)| == |segments|
  {
    if segments != [] {
      var init, last := segments[..|segments| - 1], segments[|segments| - 1];
      ReverseStrict(init);
      forall k | 0 <= k < |init|
        ensures Reverse(init)[k].row.seqNum < last.row.seqNum
      {
        ReverseHas(init, Reverse(init)[k]);
        assert Reverse(init)[k] in Reverse(init);
      }
    }
  }

  lemma {:induction false} OthersStrict(segments: seq<Segment>, named: Option<int>, down: bool)
    requires Strict(segments, down)
    ensures Strict(Others(segments, named), down)
  {
    if segments != [] {
      var init, last := segments[..|segments| - 1], segments[|segments| - 1];
      OthersStrict(init, named, down);
      forall k | 0 <= k < |Others(init, named)|
        ensures Others(init, named)[k] in init
      {
        OthersHas(init, named, Others(init, named)[k]);
      }
    }
  }

  /** Rows of a distinct list, none twice. */
  ghost predicate Among(some: seq<Row>, rows: seq<Row>) {
    Distinct(some) && forall row :: row in some ==> row in rows
  }

  lemma {:induction false} RangeAmong(rows: seq<Row>, lo: int, hi: int)
    requires Distinct(rows)
    ensures Among(RowsInRange(rows, lo, hi), rows)
    ensures forall row :: row in rows && lo <= row.seqNum <= hi ==> row in RowsInRange(rows, lo, hi)
  {
    if rows != [] {
      var init, last := rows[..|rows| - 1], rows[|rows| - 1];
      assert rows == init + [last];
      RangeAmong(init, lo, hi);
      var inner := RowsInRange(init, lo, hi);
      forall i | 0 <= i < |inner|
        ensures inner[i].seqNum != last.seqNum
      {
        assert inner[i] in init;
      }
    }
  }

  lemma {:induction false} ContextAmong(rows: seq<Row>, r: Request)
    requires Distinct(rows)
    ensures Among(ContextRows(rows, r), rows)
  {
    hide RowsInRange, OverlapRange;
    if r.firstSeq.Some? && r.lastSeq.Some? {
      RangeAmong(rows, r.firstSeq.value - 2, r.lastSeq.value + 2);
    }
    var range := OverlapRange(rows, r.adStart, r.adEnd);
    assert Among(rows[range.0..range.1], rows);
  }

  lemma {:induction false} LoadedAmong(rows: seq<Row>, r: Request)
    requires Distinct(rows)
    ensures Among(LoadedRows(rows, r), rows)
  {
    hide RowsInRange;
    if r.firstSeq.Some? && r.lastSeq.Some? {
      RangeAmong(rows, QueryRange(r).0, QueryRange(r).1);
    }
  }

  /** The segments searched besides the preferred one, sorted, have strictly ordered numbers. */
  lemma {:induction false} RestStrict(context: seq<Segment>, named: Option<int>, atEnd: bool)
    requires forall i, j :: 0 <= i < j < |context| ==> context[i].row.seqNum != context[j].row.seqNum
    ensures Strict(Others(if atEnd then Reverse(Sort(BySeqNum, context)) else Sort(BySeqNum, context), named), atEnd)
  {
    var sorted := Sort(BySeqNum, context);
    SortOrders(BySeqNum, context);
    SortPermutes(BySeqNum, context);
    SortedStrict(context, sorted);
    if atEnd {
      ReverseStrict(sorted);
    }
    OthersStrict(if atEnd then Reverse(sorted) else sorted, named, atEnd);
  }

  lemma {:induction false} SortedStrict(context: seq<Segment>, sorted: seq<Segment>)
    requires forall i, j :: 0 <= i < j < |context| ==> context[i].row.seqNum != context[j].row.seqNum
    requires Ordered(BySeqNum, sorted) && multiset(sorted) == multiset(context)
    ensures Strict(sorted, false)
  {
    forall i, j | 0 <= i < j < |sorted|
      ensures sorted[i].row.seqNum < sorted[j].row.seqNum
    {
      assert BySeqNum(sorted[i], sorted[j]);
      if sorted[i].row.seqNum == sorted[j].row.seqNum {
        var a, b := sorted[i], sorted[j];
        assert a in multiset(context) && b in multiset(context);
        var k :| 0 <= k < |context| && context[k] == a;
        var m :| 0 <= m < |context| && context[m] == b;
        assert a == b;
        TwiceIn(sorted, i, j);
        OnceIn(context, k);
      }
    }
  }

  lemma {:induction false} TwiceIn(xs: seq<Segment>, i: nat, j: nat)
    requires i < j < |xs| && xs[i] == xs[j]
    ensures multiset(xs)[xs[i]] >= 2
  {
    assert xs == xs[..j] + xs[j..];
    assert xs[i] in multiset(xs[..j]) && xs[j] in multiset(xs[j..]);
  }

  lemma {:induction false} OnceIn(xs: seq<Segment>, k: nat)
    requires k < |xs| && forall i, j :: 0 <= i < j < |xs| ==> xs[i].row.seqNum != xs[j].row.seqNum
    ensures multiset(xs)[xs[k]] == 1
  {
    assert xs == xs[..k] + [xs[k]] + xs[k + 1..];
    assert xs[k] !in multiset(xs[..k]) && xs[k] !in multiset(xs[k + 1..]);
  }

  lemma {:induction false} Unnumbered(entries: seq<WordEntry>, n: int)
    requires !Numbered(entries, n)
    ensures n !in AllWords(entries)
  {
    if entries != [] {
      var init := entries[..|entries| - 1];
      assert forall i :: 0 <= i < |init| ==> init[i] == entries[i];
      Unnumbered(init, n);
    }
  }

  /** A searched segment has the same words on both paths. */
  lemma {:induction false} SameWords(rows: seq<Row>, entries: seq<WordEntry>, r: Request, named: Option<int>, row: Row)
    requires PhraseGuard(rows, entries, r, named) && Searches(rows, r, named, row.seqNum)
    ensures AttachOne(row, AllWords(Parsed(entries))) == AttachOne(row, AllWords(entries))
  {
    hide Searches;
    if !AllNumbered(entries) {
      Unnumbered(entries, row.seqNum);
    }
  }

  lemma {:induction false} SameRow(rows: seq<Row>, a: Row, b: Row)
    requires Distinct(rows) && a in rows && b in rows && a.seqNum == b.seqNum
    ensures a == b
  {
    var i :| 0 <= i < |rows| && rows[i] == a;
    var j :| 0 <= j < |rows| && rows[j] == b;
    assert i < j || j < i || i == j;
  }

  /** A context row of one list is one of the other, if both are searched for the same numbers. */
  lemma {:induction false} ContextHas(rows: seq<Row>, some: seq<Row>, others: seq<Row>, row: Row)
    requires Distinct(rows) && Among(some, rows) && Among(others, rows)
    requires row in some && HasNumber(others, row.seqNum)
    ensures row in others
  {
    var i :| 0 <= i < |others| && others[i].seqNum == row.seqNum;
    assert others[i] in others;
    SameRow(rows, row, others[i]);
  }

  /** The context of the lazy path, and of the full one, without the named segment. */
  lemma {:induction false} ContextsSame(rows: seq<Row>, entries: seq<WordEntry>, r: Request, named: Option<int>,
                                        s: Segment)
    requires Distinct(rows) && PhraseGuard(rows, entries, r, named)
    ensures var lazy := Attach(ContextRows(LoadedRows(rows, r), r), AllWords(Parsed(entries)));
            var full := Attach(ContextRows(rows, r), AllWords(entries));
            Some(s.row.seqNum) != named ==> (s in lazy <==> s in full)
  {
    hide PhraseGuard, ContextRows, LoadedRows, AllWords, Parsed, Distinct;
    var n, loaded := s.row.seqNum, LoadedRows(rows, r);
    var some, others := ContextRows(loaded, r), ContextRows(rows, r);
    LoadedAmong(rows, r);
    ContextAmong(rows, r);
    AmongDistinct(loaded, rows);
    ContextAmong(loaded, r);
    AmongTransitive(some, loaded, rows);
    if Some(n) != named {
      GuardAt(rows, entries, r, named, n);
      AttachHas(some, AllWords(Parsed(entries)), s);
      AttachHas(others, AllWords(entries), s);
      NumberOf(some, s.row);
      NumberOf(others, s.row);
      if s.row in some && HasNumber(others, n) {
        ContextHas(rows, some, others, s.row);
      }
      if s.row in others && HasNumber(some, n) {
        ContextHas(rows, others, some, s.row);
      }
      if s.row in others {
        SameWords(rows, entries, r, named, s.row);
      }
    }
  }

  lemma {:induction false} GuardAt(rows: seq<Row>, entries: seq<WordEntry>, r: Request, named: Option<int>, n: int)
    requires PhraseGuard(rows, entries, r, named)
    ensures Searches(LoadedRows(rows, r), r, named, n) <==> Searches(rows, r, named, n)
  {
  }

  lemma {:induction false} AmongDistinct(some: seq<Row>, rows: seq<Row>)
    requires Among(some, rows)
    ensures Distinct(some)
  {
  }

  lemma {:induction false} AmongTransitive(a: seq<Row>, b: seq<Row>, c: seq<Row>)
    requires Among(a, b) && Among(b, c)
    ensures Among(a, c)
  {
  }

  lemma {:induction false} AttachHas(rows: seq<Row>, words: WordsBySeq, s: Segment)
    ensures s in Attach(rows, words) <==> s.row in rows && s == AttachOne(s.row, words)
  {
    var segments := Attach(rows, words);
    if s in segments {
      var i :| 0 <= i < |segments| && segments[i] == s;
      assert segments[i] == AttachOne(rows[i], words);
    }
    if s.row in rows && s == AttachOne(s.row, words) {
      var i :| 0 <= i < |rows| && rows[i] == s.row;
      assert segments[i] == AttachOne(rows[i], words);
    }
  }

  lemma {:induction false} NumberOf(rows: seq<Row>, row: Row)
    ensures row in rows ==> HasNumber(rows, row.seqNum)
  {
  }

  /** Under the guard a phrase has the same time on both paths, whatever the texts and the words. */
  lemma {:induction false} GuardSuffices(ops: TextOps, rows: seq<Row>, entries: seq<WordEntry>, r: Request,
                                         named: Option<int>, phrase: Option<string>, atEnd: bool)
    requires Distinct(rows) && PhraseGuard(rows, entries, r, named) && (named == r.startSeq || named == r.endSeq)
    ensures var w, loaded := AllWords(Parsed(entries)), LoadedRows(rows, r);
            PhraseTime(ops, Attach(loaded, w), Attach(ContextRows(loaded, r), w), named, phrase, atEnd)
            == PhraseTime(ops, Attach(rows, AllWords(entries)), Attach(ContextRows(rows, r), AllWords(entries)), named,
                          phrase, atEnd)
  {
    hide PhraseGuard, ContextRows, LoadedRows, AllWords, Parsed, Distinct, Sort, Searches, FirstPhraseTime, SplitLower;
    var w, loaded := AllWords(Parsed(entries)), LoadedRows(rows, r);
    var lazy, full := Attach(ContextRows(loaded, r), w), Attach(ContextRows(rows, r), AllWords(entries));
    PreferredSame(rows, entries, r, named);
    RestSame(rows, entries, r, named, atEnd);
  }

  lemma {:induction false} PreferredSame(rows: seq<Row>, entries: seq<WordEntry>, r: Request, named: Option<int>)
    requires PhraseGuard(rows, entries, r, named) && (named == r.startSeq || named == r.endSeq)
    ensures FindSegment(Attach(LoadedRows(rows, r), AllWords(Parsed(entries))), named)
         == FindSegment(Attach(rows, AllWords(entries)), named)
  {
    hide PhraseGuard, AllWords, Parsed;
    NamedIsLoaded(rows, r, named);
    FindAttached(LoadedRows(rows, r), AllWords(Parsed(entries)), named);
    FindAttached(rows, AllWords(entries), named);
    if FindRow(rows, named).Some? {
      SameWords(rows, entries, r, named, FindRow(rows, named).value);
    }
  }

  function Rest(context: seq<Segment>, named: Option<int>, atEnd: bool): seq<Segment> {
    Others(if atEnd then Reverse(Sort(BySeqNum, context)) else Sort(BySeqNum, context), named)
  }

  lemma {:induction false} RestHas(context: seq<Segment>, named: Option<int>, atEnd: bool, s: Segment)
    ensures s in Rest(context, named, atEnd) <==> s in context && Some(s.row.seqNum) != named
  {
    var sorted := Sort(BySeqNum, context);
    SortKeepsElements(BySeqNum, context);
    ReverseHas(sorted, s);
    OthersHas(if atEnd then Reverse(sorted) else sorted, named, s);
  }

  /** The candidates are the preferred segment and those of the context with other numbers. */
  lemma {:induction false} CandidatesHas(preferred: Option<Segment>, context: seq<Segment>, named: Option<int>,
                                         atEnd: bool, s: Segment)
    ensures s in PhraseCandidates(preferred, context, named, atEnd)
            <==> preferred == Some(s) || (s in context && Some(s.row.seqNum) != named)
  {
    hide Sort, Others, Reverse;
    RestHas(context, named, atEnd, s);
    assert Rest(context, named, atEnd)
        == Others(if atEnd then Reverse(Sort(BySeqNum, context)) else Sort(BySeqNum, context), named);
  }

  lemma {:induction false} RestSame(rows: seq<Row>, entries: seq<WordEntry>, r: Request, named: Option<int>,
                                    atEnd: bool)
    requires Distinct(rows) && PhraseGuard(rows, entries, r, named)
    ensures Rest(Attach(ContextRows(LoadedRows(rows, r), r), AllWords(Parsed(entries))), named, atEnd)
         == Rest(Attach(ContextRows(rows, r), AllWords(entries)), named, atEnd)
  {
    hide PhraseGuard, ContextRows, LoadedRows, AllWords, Parsed, Distinct, Sort, Others, Reverse;
    var loaded := LoadedRows(rows, r);
    var lazy := Attach(ContextRows(loaded, r), AllWords(Parsed(entries)));
    var full := Attach(ContextRows(rows, r), AllWords(entries));
    LoadedAmong(rows, r);
    AmongDistinct(loaded, rows);
    RestOfRows(loaded, AllWords(Parsed(entries)), r, named, atEnd);
    RestOfRows(rows, AllWords(entries), r, named, atEnd);
    forall s
      ensures s in Rest(lazy, named, atEnd) <==> s in Rest(full, named, atEnd)
    {
      RestHas(lazy, named, atEnd, s);
      RestHas(full, named, atEnd, s);
      ContextsSame(rows, entries, r, named, s);
    }
    StrictSame(Rest(lazy, named, atEnd), Rest(full, named, atEnd), atEnd);
  }

  lemma {:induction false} RestOfRows(rows: seq<Row>, words: WordsBySeq, r: Request, named: Option<int>, atEnd: bool)
    requires Distinct(rows)
    ensures Strict(Rest(Attach(ContextRows(rows, r), words), named, atEnd), atEnd)
  {
    hide ContextRows;
    ContextAmong(rows, r);
    RestStrict(Attach(ContextRows(rows, r), words), named, atEnd);
  }

  /** Whatever the text operations, texts and words are: under the guard the two paths give the same start. */
  lemma {:induction false} GuardedStart(ops: TextOps, rows: seq<Row>, entries: seq<WordEntry>, r: Request)
    requires Distinct(rows) && HasText(ops, r.startPhrase) && PhraseGuard(rows, entries, r, r.startSeq)
    ensures ResolveLazy(ops, rows, entries, r).start == ResolveFull(ops, rows, entries, r).start
  {
    hide PhraseGuard, PhraseTime, ContextRows, LoadedRows, AllWords, Parsed, ResolveLazy, ResolveFull;
    GuardSuffices(ops, rows, entries, r, r.startSeq, r.startPhrase, false);
    StartOfPhrase(ops, rows, entries, r);
    LazyStartOfPhrase(ops, rows, entries, r);
  }

  lemma {:induction false} GuardedEnd(ops: TextOps, rows: seq<Row>, entries: seq<WordEntry>, r: Request)
    requires Distinct(rows) && HasText(ops, r.endPhrase) && PhraseGuard(rows, entries, r, r.endSeq)
    ensures ResolveLazy(ops, rows, entries, r).end == ResolveFull(ops, rows, entries, r).end
  {
    hide PhraseGuard, PhraseTime, ContextRows, LoadedRows, AllWords, Parsed, ResolveLazy, ResolveFull;
    GuardSuffices(ops, rows, entries, r, r.endSeq, r.endPhrase, true);
    PhraseEndsAgree(ops, rows, entries, r);
  }

  // ---------- other texts and words ----------

  /** The same rows with other texts. */
  function Retext(rows: seq<Row>, texts: int -> string): seq<Row> {
    if rows == [] then []
    else
      var last := rows[|rows| - 1];
      Retext(rows[..|rows| - 1], texts) + [last.(text := texts(last.seqNum))]
  }

  /** The same array with other words in its entries. */
  function Reword(entries: seq<WordEntry>, words: nat -> Option<seq<Word>>): seq<WordEntry> {
    seq(|entries|, i requires 0 <= i < |entries| => WordEntry(entries[i].seqNum, words(i)))
  }

  lemma {:induction false} RetextAt(rows: seq<Row>, texts: int -> string)
    ensures |Retext(rows, texts)| == |rows|
    ensures forall i :: 0 <= i < |rows| ==> Retext(rows, texts)[i] == rows[i].(text := texts(rows[i].seqNum))
  {
    if rows != [] {
      RetextAt(rows[..|rows| - 1], texts);
    }
  }

  lemma {:induction false} RetextSlice(rows: seq<Row>, texts: int -> string, lo: nat, hi: nat)
    requires lo <= hi <= |rows|
    ensures |Retext(rows, texts)| == |rows| && Retext(rows, texts)[lo..hi] == Retext(rows[lo..hi], texts)
  {
    RetextAt(rows, texts);
    RetextAt(rows[lo..hi], texts);
  }

  lemma {:induction false} RetextRange(rows: seq<Row>, texts: int -> string, lo: int, hi: int)
    ensures RowsInRange(Retext(rows, texts), lo, hi) == Retext(RowsInRange(rows, lo, hi), texts)
  {
    if rows != [] {
      var init, last := rows[..|rows| - 1], rows[|rows| - 1];
      RetextRange(init, texts, lo, hi);
      assert Retext(rows, texts)[..|Retext(rows, texts)| - 1] == Retext(init, texts);
      var some := RowsInRange(init, lo, hi);
      assert (some + [last])[..|some|] == some;
    }
  }

  lemma {:induction false} RetextFirst(rows: seq<Row>, texts: int -> string, adStart: real, adEnd: real, i: nat)
    requires i <= |rows| && |Retext(rows, texts)| == |rows|
    ensures FirstOverlap(Retext(rows, texts), adStart, adEnd, i) == FirstOverlap(rows, adStart, adEnd, i)
    decreases |rows| - i
  {
    hide Retext;
    RetextAt(rows, texts);
    if i < |rows| {
      RetextFirst(rows, texts, adStart, adEnd, i + 1);
    }
  }

  lemma {:induction false} RetextLast(rows: seq<Row>, texts: int -> string, adStart: real, adEnd: real, i: nat)
    requires i <= |rows| && |Retext(rows, texts)| == |rows|
    ensures LastOverlap(Retext(rows, texts), adStart, adEnd, i) == LastOverlap(rows, adStart, adEnd, i)
  {
    hide Retext;
    RetextAt(rows, texts);
    if i > 0 {
      RetextLast(rows, texts, adStart, adEnd, i - 1);
    }
  }

  lemma {:induction false} RetextContext(rows: seq<Row>, texts: int -> string, r: Request)
    ensures ContextRows(Retext(rows, texts), r) == Retext(ContextRows(rows, r), texts)
  {
    hide Retext, RowsInRange, FirstOverlap, LastOverlap;
    RetextAt(rows, texts);
    RetextFirst(rows, texts, r.adStart, r.adEnd, 0);
    RetextLast(rows, texts, r.adStart, r.adEnd, |rows|);
    var range := OverlapRange(rows, r.adStart, r.adEnd);
    RetextSlice(rows, texts, range.0, range.1);
    if r.firstSeq.Some? && r.lastSeq.Some? {
      RetextRange(rows, texts, r.firstSeq.value - 2, r.lastSeq.value + 2);
      RetextAt(RowsInRange(rows, r.firstSeq.value - 2, r.lastSeq.value + 2), texts);
    }
  }

  lemma {:induction false} RetextLoaded(rows: seq<Row>, texts: int -> string, r: Request)
    ensures LoadedRows(Retext(rows, texts), r) == Retext(LoadedRows(rows, r), texts)
  {
    hide Retext, RowsInRange;
    if r.firstSeq.Some? && r.lastSeq.Some? {
      RetextRange(rows, texts, QueryRange(r).0, QueryRange(r).1);
    }
  }

  lemma {:induction false} FoundHasNumber(rows: seq<Row>, n: int)
    ensures FindRow(rows, Some(n)).Some? <==> HasNumber(rows, n)
  {
    if rows != [] {
      var init, last := rows[..|rows| - 1], rows[|rows| - 1];
      FoundHasNumber(init, n);
      assert HasNumber(init, n) ==> HasNumber(rows, n) by {
        assert forall i :: 0 <= i < |init| ==> init[i] == rows[i];
      }
      if HasNumber(rows, n) && last.seqNum != n {
        var i :| 0 <= i < |rows| && rows[i].seqNum == n;
        assert init[i].seqNum == n;
      }
    }
  }

  lemma {:induction false} RetextNumber(rows: seq<Row>, texts: int -> string, n: int)
    ensures HasNumber(Retext(rows, texts), n) <==> HasNumber(rows, n)
  {
    hide Retext;
    RetextAt(rows, texts);
    if i :| 0 <= i < |rows| && rows[i].seqNum == n {
      assert Retext(rows, texts)[i].seqNum == n;
    }
  }

  /** What is searched does not depend on the texts. */
  lemma {:induction false} RetextSearches(rows: seq<Row>, texts: int -> string, r: Request, named: Option<int>, n: int)
    ensures Searches(Retext(rows, texts), r, named, n) <==> Searches(rows, r, named, n)
  {
    hide Retext, ContextRows, FindRow, HasNumber;
    RetextContext(rows, texts, r);
    RetextNumber(ContextRows(rows, r), texts, n);
    RetextNumber(rows, texts, n);
    FoundHasNumber(rows, n);
    FoundHasNumber(Retext(rows, texts), n);
  }

  lemma {:induction false} RewordNumbered(entries: seq<WordEntry>, words: nat -> Option<seq<Word>>, n: int)
    ensures Numbered(Reword(entries, words), n) <==> Numbered(entries, n)
  {
    if i :| 0 <= i < |entries| && entries[i].seqNum == Some(n) {
      assert Reword(entries, words)[i].seqNum == Some(n);
    }
  }

  lemma {:induction false} RewordParses(entries: seq<WordEntry>, words: nat -> Option<seq<Word>>)
    ensures AllNumbered(Reword(entries, words)) <==> AllNumbered(entries)
  {
    assert forall i :: 0 <= i < |entries| ==> Reword(entries, words)[i].seqNum == entries[i].seqNum;
  }

  /** The guard does not depend on texts and words. */
  lemma {:induction false} GuardStays(rows: seq<Row>, entries: seq<WordEntry>, texts: int -> string,
                                      words: nat -> Option<seq<Word>>, r: Request, named: Option<int>)
    requires PhraseGuard(rows, entries, r, named)
    ensures PhraseGuard(Retext(rows, texts), Reword(entries, words), r, named)
  {
    hide Retext, Reword, Searches, LoadedRows, Numbered, AllNumbered;
    RewordParses(entries, words);
    RetextLoaded(rows, texts, r);
    forall n: int
      ensures Searches(LoadedRows(Retext(rows, texts), r), r, named, n) <==> Searches(Retext(rows, texts), r, named, n)
      ensures Numbered(Reword(entries, words), n) <==> Numbered(entries, n)
      ensures Searches(Retext(rows, texts), r, named, n) <==> Searches(rows, r, named, n)
    {
      RetextSearches(rows, texts, r, named, n);
      RetextSearches(LoadedRows(rows, r), texts, r, named, n);
      RewordNumbered(entries, words, n);
    }
  }

  lemma {:induction false} RetextDistinct(rows: seq<Row>, texts: int -> string)
    requires Distinct(rows)
    ensures Distinct(Retext(rows, texts))
  {
    hide Retext;
    RetextAt(rows, texts);
  }

  // ---------- the guard is needed ----------

  /** The time of a phrase of one word. */
  function WordTimeIn(rows: seq<Row>, words: WordsBySeq, r: Request, named: Option<int>, phrase: string, atEnd: bool)
    : Option<real>
  {
    PhraseTime(ONE_WORD, Attach(rows, words), Attach(ContextRows(rows, r), words), named, Some(phrase), atEnd)
  }

  lemma {:induction false} WordTimeOfSome(rows: seq<Row>, words: WordsBySeq, r: Request, named: Option<int>,
                                          phrase: string, atEnd: bool)
    ensures var preferred := FindSegment(Attach(rows, words), named);
            var candidates := PhraseCandidates(preferred, Attach(ContextRows(rows, r), words), named, atEnd);
            WordTimeIn(rows, words, r, named, phrase, atEnd).Some?
            <==> exists s :: s in candidates && PhraseTimeInSegment(ONE_WORD, s, [phrase], atEnd).Some?
  {
    hide PhraseTimeInSegment, PhraseCandidates, FindSegment, ContextRows;
    OneWordSplit(phrase);
    TimeOfSome(ONE_WORD, PhraseCandidates(FindSegment(Attach(rows, words), named),
                                          Attach(ContextRows(rows, r), words), named, atEnd), [phrase], atEnd);
  }

  /** A searched segment that has the phrase gives it a time. */
  lemma {:induction false} SearchedFinds(rows: seq<Row>, words: WordsBySeq, r: Request, named: Option<int>,
                                         phrase: string, atEnd: bool, n: int)
    requires Distinct(rows) && Searches(rows, r, named, n)
    requires forall row :: row in rows && row.seqNum == n ==>
               PhraseTimeInSegment(ONE_WORD, AttachOne(row, words), [phrase], atEnd).Some?
    ensures WordTimeIn(rows, words, r, named, phrase, atEnd).Some?
  {
    hide PhraseTimeInSegment, PhraseCandidates, FindSegment, ContextRows, WordTimeIn, FindRow, AttachOne;
    var context := ContextRows(rows, r);
    ContextAmong(rows, r);
    WordTimeOfSome(rows, words, r, named, phrase, atEnd);
    FindAttached(rows, words, named);
    var row;
    if named == Some(n) {
      if FindRow(rows, named).None? {
        NumberAmong(context, rows, n);
        FoundHasNumber(rows, n);
      }
      FoundIn(rows, named);
      row := FindRow(rows, named).value;
    } else {
      var i :| 0 <= i < |context| && context[i].seqNum == n;
      row := context[i];
      assert row in context;
      AttachHas(context, words, AttachOne(row, words));
    }
    NumberOfAttached(row, words);
    CandidatesHas(FindSegment(Attach(rows, words), named), Attach(context, words), named, atEnd,
                  AttachOne(row, words));
  }

  lemma {:induction false} NumberOfAttached(row: Row, words: WordsBySeq)
    ensures AttachOne(row, words).row == row
  {
  }

  lemma {:induction false} NumberAmong(some: seq<Row>, rows: seq<Row>, n: int)
    requires Among(some, rows) && HasNumber(some, n)
    ensures HasNumber(rows, n)
  {
    var i :| 0 <= i < |some| && some[i].seqNum == n;
    assert some[i] in rows;
  }

  lemma {:induction false} FoundIn(rows: seq<Row>, named: Option<int>)
    requires FindRow(rows, named).Some?
    ensures var row := FindRow(rows, named).value; row in rows && named == Some(row.seqNum)
  {
    if rows != [] {
      var init := rows[..|rows| - 1];
      if FindRow(init, named).Some? {
        FoundIn(init, named);
      }
    }
  }

  /** Without a searched segment that has the phrase it has no time. */
  lemma {:induction false} SearchedMisses(rows: seq<Row>, words: WordsBySeq, r: Request, named: Option<int>,
                                          phrase: string, atEnd: bool)
    requires Distinct(rows)
    requires forall row :: row in rows && Searches(rows, r, named, row.seqNum) ==>
               PhraseTimeInSegment(ONE_WORD, AttachOne(row, words), [phrase], atEnd).None?
    ensures WordTimeIn(rows, words, r, named, phrase, atEnd).None?
  {
    hide PhraseTimeInSegment, PhraseCandidates, FindSegment, ContextRows, WordTimeIn, FindRow, AttachOne, HasNumber;
    var context, preferred := ContextRows(rows, r), FindSegment(Attach(rows, words), named);
    ContextAmong(rows, r);
    WordTimeOfSome(rows, words, r, named, phrase, atEnd);
    FindAttached(rows, words, named);
    if FindRow(rows, named).Some? {
      FoundIn(rows, named);
      NumberOfAttached(FindRow(rows, named).value, words);
    }
    forall s | s in PhraseCandidates(preferred, Attach(context, words), named, atEnd)
      ensures PhraseTimeInSegment(ONE_WORD, s, [phrase], atEnd).None?
    {
      CandidatesHas(preferred, Attach(context, words), named, atEnd, s);
      AttachHas(context, words, s);
      NumberOf(context, s.row);
    }
  }

  lemma {:induction false} RetextHas(rows: seq<Row>, texts: int -> string, row: Row)
    requires row in Retext(rows, texts)
    ensures row.text == texts(row.seqNum)
    ensures exists i :: 0 <= i < |rows| && row == rows[i].(text := row.text)
  {
    hide Retext;
    RetextAt(rows, texts);
  }

  /** Every row lasts, so its text can give a phrase a time. */
  ghost predicate AllLast(rows: seq<Row>) {
    forall i :: 0 <= i < |rows| ==> rows[i].start < rows[i].end
  }

  /** Only the segment with the number has the phrase in its text. */
  function TextAt(n: int, phrase: string): int -> string {
    m => if m == n then phrase else ""
  }

  const NO_WORDS: nat -> Option<seq<Word>> := i => None

  lemma {:induction false} NoWords(entries: seq<WordEntry>)
    ensures AllWords(Reword(entries, NO_WORDS)) == map[] && AllWords(Parsed(Reword(entries, NO_WORDS))) == map[]
  {
    WordlessEntries(Reword(entries, NO_WORDS));
  }

  lemma {:induction false} WordlessEntries(entries: seq<WordEntry>)
    requires forall i :: 0 <= i < |entries| ==> entries[i].words.None?
    ensures AllWords(entries) == map[]
  {
    if entries != [] {
      WordlessEntries(entries[..|entries| - 1]);
    }
  }

  /** A text in one segment is found exactly where that segment is searched. */
  lemma {:induction false} TextDecides(rows: seq<Row>, r: Request, named: Option<int>, phrase: string, atEnd: bool,
                                       n: int)
    requires Distinct(rows) && AllLast(rows) && phrase != ""
    ensures WordTimeIn(Retext(rows, TextAt(n, phrase)), map[], r, named, phrase, atEnd).Some?
            <==> Searches(rows, r, named, n)
  {
    hide WordTimeIn, Searches, Retext, PhraseTimeInSegment;
    var told := Retext(rows, TextAt(n, phrase));
    RetextDistinct(rows, TextAt(n, phrase));
    RetextSearches(rows, TextAt(n, phrase), r, named, n);
    forall row | row in told
      ensures PhraseTimeInSegment(ONE_WORD, AttachOne(row, map[]), [phrase], atEnd).Some? <==> row.seqNum == n
    {
      RetextHas(rows, TextAt(n, phrase), row);
      if row.seqNum == n {
        TextTime(row, atEnd);
      } else {
        TextTimeMissing(row, phrase, atEnd);
      }
    }
    if Searches(told, r, named, n) {
      SearchedFinds(told, map[], r, named, phrase, atEnd, n);
    } else {
      SearchedMisses(told, map[], r, named, phrase, atEnd);
    }
  }

  /** Words for one entry only. */
  function WordsAt(i: nat, phrase: string): nat -> Option<seq<Word>> {
    j => if j == i then Some([Word(phrase, Some(0.0), Some(0.0))]) else None
  }

  lemma {:induction false} OneEntry(entries: seq<WordEntry>, i: nat, phrase: string)
    requires i < |entries| && entries[i].seqNum.Some?
    ensures AllWords(Reword(entries, WordsAt(i, phrase)))
         == map[entries[i].seqNum.value := [Word(phrase, Some(0.0), Some(0.0))]]
  {
    var words := WordsAt(i, phrase);
    var told, n := Reword(entries, words), |entries| - 1;
    assert told[..n] == Reword(entries[..n], words);
    if i == n {
      WordlessEntries(told[..n]);
    } else {
      OneEntry(entries[..n], i, phrase);
    }
  }

  /** A word stored for a searched segment is found by the full path, and not where the array does not parse. */
  lemma {:induction false} WordDecides(rows: seq<Row>, entries: seq<WordEntry>, r: Request, named: Option<int>,
                                       phrase: string, atEnd: bool, i: nat)
    requires Distinct(rows) && phrase != "" && !AllNumbered(entries)
    requires i < |entries| && entries[i].seqNum.Some? && Searches(rows, r, named, entries[i].seqNum.value)
    ensures var told, words := Retext(rows, m => ""), Reword(entries, WordsAt(i, phrase));
            && WordTimeIn(told, AllWords(words), r, named, phrase, atEnd).Some?
            && AllWords(Parsed(words)) == map[]
  {
    hide WordTimeIn, Searches, Retext, PhraseTimeInSegment, AllWords, Reword, AllNumbered;
    var texts: int -> string := m => "";
    var told, n := Retext(rows, texts), entries[i].seqNum.value;
    RetextDistinct(rows, texts);
    RetextSearches(rows, texts, r, named, n);
    OneEntry(entries, i, phrase);
    RewordParses(entries, WordsAt(i, phrase));
    WordlessEntries([]);
    var words := AllWords(Reword(entries, WordsAt(i, phrase)));
    forall row | row in told && row.seqNum == n
      ensures PhraseTimeInSegment(ONE_WORD, AttachOne(row, words), [phrase], atEnd).Some?
    {
      StoredTime(row, Word(phrase, Some(0.0), Some(0.0)), atEnd);
    }
    SearchedFinds(told, words, r, named, phrase, atEnd, n);
  }

  lemma {:induction false} NothingSaid(rows: seq<Row>, r: Request, named: Option<int>, phrase: string, atEnd: bool)
    requires Distinct(rows) && phrase != ""
    ensures WordTimeIn(Retext(rows, m => ""), map[], r, named, phrase, atEnd).None?
  {
    hide WordTimeIn, Searches, Retext, PhraseTimeInSegment;
    var texts: int -> string := m => "";
    var told := Retext(rows, texts);
    RetextDistinct(rows, texts);
    forall row | row in told
      ensures PhraseTimeInSegment(ONE_WORD, AttachOne(row, map[]), [phrase], atEnd).None?
    {
      RetextHas(rows, texts, row);
      TextTimeMissing(row, phrase, atEnd);
    }
    SearchedMisses(told, map[], r, named, phrase, atEnd);
  }

  /** Where the guard fails, there are texts and words for which one path finds the phrase and the other does not. */
  lemma {:induction false} GuardNeeded(rows: seq<Row>, entries: seq<WordEntry>, r: Request, named: Option<int>,
                                       phrase: string, atEnd: bool)
    returns (texts: int -> string, words: nat -> Option<seq<Word>>)
    requires Distinct(rows) && AllLast(rows) && phrase != "" && !PhraseGuard(rows, entries, r, named)
    ensures var told, said := Retext(rows, texts), Reword(entries, words);
            WordTimeIn(LoadedRows(told, r), AllWords(Parsed(said)), r, named, phrase, atEnd).Some?
            != WordTimeIn(told, AllWords(said), r, named, phrase, atEnd).Some?
  {
    hide WordTimeIn, Searches, Retext, Reword, LoadedRows, AllWords, Parsed;
    LoadedAmong(rows, r);
    LoadedLast(rows, r);
    AmongDistinct(LoadedRows(rows, r), rows);
    if n: int :| Searches(LoadedRows(rows, r), r, named, n) != Searches(rows, r, named, n) {
      texts, words := TextAt(n, phrase), NO_WORDS;
      NoWords(entries);
      RetextLoaded(rows, texts, r);
      TextDecides(rows, r, named, phrase, atEnd, n);
      TextDecides(LoadedRows(rows, r), r, named, phrase, atEnd, n);
    } else {
      var n: int :| Searches(rows, r, named, n) && Numbered(entries, n);
      var i: nat :| i < |entries| && entries[i].seqNum == Some(n);
      texts, words := m => "", WordsAt(i, phrase);
      RetextLoaded(rows, texts, r);
      WordDecides(rows, entries, r, named, phrase, atEnd, i);
      NothingSaid(LoadedRows(rows, r), r, named, phrase, atEnd);
    }
  }

  lemma {:induction false} LoadedLast(rows: seq<Row>, r: Request)
    requires Distinct(rows) && AllLast(rows)
    ensures AllLast(LoadedRows(rows, r))
  {
    hide LoadedRows;
    LoadedAmong(rows, r);
    var loaded := LoadedRows(rows, r);
    forall i | 0 <= i < |loaded|
      ensures loaded[i].start < loaded[i].end
    {
      assert loaded[i] in rows;
    }
  }

  // ---------- the guard is exact ----------

  predicate SameStart(rows: seq<Row>, entries: seq<WordEntry>, r: Request) {
    ResolveLazy(ONE_WORD, rows, entries, r).start == ResolveFull(ONE_WORD, rows, entries, r).start
  }

  predicate SameEnd(rows: seq<Row>, entries: seq<WordEntry>, r: Request) {
    ResolveLazy(ONE_WORD, rows, entries, r).end == ResolveFull(ONE_WORD, rows, entries, r).end
  }

  /** For a start phrase the two paths give the same start whatever the transcript says if and only if the guard
      on the numbers holds. */
  lemma {:induction false} StartGuardExact(rows: seq<Row>, entries: seq<WordEntry>, r: Request)
    requires Distinct(rows) && AllLast(rows) && HasText(ONE_WORD, r.startPhrase)
    ensures PhraseGuard(rows, entries, r, r.startSeq)
            <==> forall texts, words :: SameStart(Retext(rows, texts), Reword(entries, words), r)
  {
    hide PhraseGuard, Retext, Reword, ResolveLazy, ResolveFull, AllWords, Parsed, LoadedRows, PhraseTime, ContextRows;
    if PhraseGuard(rows, entries, r, r.startSeq) {
      forall texts, words
        ensures SameStart(Retext(rows, texts), Reword(entries, words), r)
      {
        GuardStays(rows, entries, texts, words, r, r.startSeq);
        RetextDistinct(rows, texts);
        GuardedStart(ONE_WORD, Retext(rows, texts), Reword(entries, words), r);
      }
    } else {
      var texts, words := GuardNeeded(rows, entries, r, r.startSeq, r.startPhrase.value, false);
      StartOfPhrase(ONE_WORD, Retext(rows, texts), Reword(entries, words), r);
      LazyStartOfPhrase(ONE_WORD, Retext(rows, texts), Reword(entries, words), r);
      var b := SameStart(Retext(rows, texts), Reword(entries, words), r);
    }
  }

  /** The same for an end phrase and the end. */
  lemma {:induction false} EndGuardExact(rows: seq<Row>, entries: seq<WordEntry>, r: Request)
    requires Distinct(rows) && AllLast(rows) && HasText(ONE_WORD, r.endPhrase)
    ensures PhraseGuard(rows, entries, r, r.endSeq)
            <==> forall texts, words :: SameEnd(Retext(rows, texts), Reword(entries, words), r)
  {
    hide PhraseGuard, Retext, Reword, ResolveLazy, ResolveFull, AllWords, Parsed, LoadedRows, PhraseTime, ContextRows;
    if PhraseGuard(rows, entries, r, r.endSeq) {
      forall texts, words
        ensures SameEnd(Retext(rows, texts), Reword(entries, words), r)
      {
        GuardStays(rows, entries, texts, words, r, r.endSeq);
        RetextDistinct(rows, texts);
        GuardedEnd(ONE_WORD, Retext(rows, texts), Reword(entries, words), r);
      }
    } else {
      var texts, words := GuardNeeded(rows, entries, r, r.endSeq, r.endPhrase.value, true);
      PhraseEndsAgree(ONE_WORD, Retext(rows, texts), Reword(entries, words), r);
      var b := SameEnd(Retext(rows, texts), Reword(entries, words), r);
    }
  }
}
