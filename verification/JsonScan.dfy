/** The scanner that picks the top-level `{...}` objects out of model output, tracking only brace
    depth, strings and escapes. */
module JsonScan {
  import opened Basics

  /** A stretch of the text, [first, stop). */
  datatype Span = Span(first: nat, stop: nat)

  /** The part of the state that decides what the next character means. */
  datatype Control = Control(depth: nat, inString: bool, escaped: bool)

  datatype State = State(control: Control, start: Option<nat>, spans: seq<Span>)

  const OUTSIDE := Control(0, false, false)

  function Turn(c: Control, ch: char): Control {
    if c.inString then
      if c.escaped then c.(escaped := false)
      else if ch == '\\' then c.(escaped := true)
      else if ch == '"' then c.(inString := false)
      else c
    else if ch == '"' then c.(inString := true)
    else if ch == '{' then c.(depth := c.depth + 1)
    else if ch == '}' && c.depth > 0 then c.(depth := c.depth - 1)
    else c
  }

  /** The character opens a top-level object. */
  predicate Opens(c: Control, ch: char) {
    !c.inString && ch == '{' && c.depth == 0
  }

  /** The character closes the top-level object. */
  predicate Closes(c: Control, ch: char) {
    !c.inString && ch == '}' && c.depth == 1
  }

  /** Reads the character at position `idx`. */
  function Step(st: State, ch: char, idx: nat): State {
    State(Turn(st.control, ch),
          if Opens(st.control, ch) then Some(idx) else if Closes(st.control, ch) then None else st.start,
          if Closes(st.control, ch) && st.start.Some? then st.spans + [Span(st.start.value, idx + 1)] else st.spans)
  }

  /** Spans lie in order inside the first `n` characters. */
  ghost predicate InOrder(spans: seq<Span>, n: nat) {
    && (forall k :: 0 <= k < |spans| ==> spans[k].first < spans[k].stop <= n)
    && (forall k, m :: 0 <= k < m < |spans| ==> spans[k].stop <= spans[m].first)
  }

  /** A start is remembered exactly inside an object, behind every object already found, and escapes
      happen only in strings. */
  ghost predicate Consistent(st: State, n: nat) {
    && (st.control.depth > 0 <==> st.start.Some?)
    && (st.control.escaped ==> st.control.inString)
    && InOrder(st.spans, n)
    && (st.start.Some? ==> st.start.value < n && InOrder(st.spans, st.start.value))
  }

  lemma {:induction false} StepConsistent(st: State, ch: char, idx: nat)
    requires Consistent(st, idx)
    ensures Consistent(Step(st, ch, idx), idx + 1)
  {
  }

  function Scan(text: string): State {
    if text == "" then State(OUTSIDE, None, [])
    else Step(Scan(text[..|text| - 1]), text[|text| - 1], |text| - 1)
  }

  lemma {:induction false} ScanConsistent(text: string)
    ensures Consistent(Scan(text), |text|)
  {
    if text != "" {
      ScanConsistent(text[..|text| - 1]);
      StepConsistent(Scan(text[..|text| - 1]), text[|text| - 1], |text| - 1);
    }
  }

  /** The last step of scanning a concatenation. */
  lemma {:induction false} ScanStep(text: string, more: string)
    requires more != ""
    ensures Scan(text + more) == Step(Scan(text + more[..|more| - 1]), more[|more| - 1], |text| + |more| - 1)
  {
    assert (text + more)[..|text + more| - 1] == text + more[..|more| - 1];
  }

  function Slices(text: string, spans: seq<Span>): seq<string>
    requires InOrder(spans, |text|)
  {
    if spans == [] then []
    else Slices(text, spans[..|spans| - 1]) + [text[spans[|spans| - 1].first..spans[|spans| - 1].stop]]
  }

  function Objects(text: string): seq<string> {
    ScanConsistent(text);
    Slices(text, Scan(text).spans)
  }

  /** Slices depend only on the text up to the last span. */
  lemma {:induction false} SlicesExtend(text: string, longer: string, spans: seq<Span>)
    requires InOrder(spans, |text|) && text <= longer
    ensures InOrder(spans, |longer|) && Slices(longer, spans) == Slices(text, spans)
  {
    if spans != [] {
      var last := spans[|spans| - 1];
      SlicesExtend(text, longer, spans[..|spans| - 1]);
      assert longer[last.first..last.stop] == text[last.first..last.stop];
    }
  }

  /** One step of the scan of a longer text. */
  lemma {:induction false} StepOfScan(text: string, idx: nat)
    requires idx < |text|
    ensures Scan(text[..idx + 1]) == Step(Scan(text[..idx]), text[idx], idx)
    ensures Consistent(Scan(text[..idx]), idx)
  {
    assert text[..idx + 1][..idx] == text[..idx];
    ScanConsistent(text[..idx]);
  }

  /** The scanning loop, with the source's local variables. */
  method ExtractJsonObjects(text: string) returns (objects: seq<string>)
    ensures objects == Objects(text)
  {
    hide Slices, Scan, InOrder;
    objects := [];
    var depth: nat, startIdx: Option<nat>, inString, escaped := 0, None, false, false;
    var idx := 0;
    ScanNothing(text);
    while idx < |text|
      invariant 0 <= idx <= |text|
      invariant InOrder(Scan(text[..idx]).spans, |text|)
      invariant Scan(text[..idx]).control == Control(depth, inString, escaped) && Scan(text[..idx]).start == startIdx
      invariant objects == Slices(text, Scan(text[..idx]).spans)
      invariant depth > 0 <==> startIdx.Some?
    {
      StepOfScan(text, idx);
      var c := text[idx];
      ghost var spans := Scan(text[..idx]).spans;
      if inString {
        if escaped {
          escaped := false;
        } else if c == '\\' {
          escaped := true;
        } else if c == '"' {
          inString := false;
        }
        idx := idx + 1;
        continue;
      }
      if c == '"' {
        inString := true;
        idx := idx + 1;
        continue;
      }
      if c == '{' {
        if depth == 0 {
          startIdx := Some(idx);
        }
        depth := depth + 1;
        idx := idx + 1;
        continue;
      }
      if c == '}' && depth > 0 {
        depth := depth - 1;
        if depth == 0 {
          if startIdx.Some? {
            SlicesAppend(text, spans, Span(startIdx.value, idx + 1));
            objects := objects + [text[startIdx.value..idx + 1]];
            startIdx := None;
          }
        }
      }
      idx := idx + 1;
    }
    assert text[..|text|] == text;
  }

  lemma {:induction false} ScanNothing(text: string)
    ensures Scan(text[..0]) == State(OUTSIDE, None, [])
    ensures InOrder([], |text|) && Slices(text, []) == []
  {
  }

  lemma {:induction false} SlicesAppend(text: string, spans: seq<Span>, span: Span)
    requires span.first < span.stop <= |text| && InOrder(spans, span.first)
    ensures InOrder(spans + [span], |text|)
    ensures Slices(text, spans + [span]) == Slices(text, spans) + [text[span.first..span.stop]]
  {
    assert (spans + [span])[..|spans|] == spans;
  }

  // ---------- prefix stability ----------

  lemma {:induction false} SpansPrefix(text: string, more: string)
    ensures Scan(text).spans <= Scan(text + more).spans
    decreases |more|
  {
    if more == "" {
      assert text + more == text;
    } else {
      SpansPrefix(text, more[..|more| - 1]);
      ScanStep(text, more);
    }
  }

  lemma {:induction false} SlicesPrefix(text: string, a: seq<Span>, b: seq<Span>)
    requires a <= b && InOrder(b, |text|)
    ensures InOrder(a, |text|) && Slices(text, a) <= Slices(text, b)
    decreases |b|
  {
    if a != b {
      SlicesPrefix(text, a, b[..|b| - 1]);
    }
  }

  /** The objects found in a text are a prefix of those found in any continuation of it. */
  lemma {:induction false} ObjectsPrefixStable(text: string, more: string)
    ensures Objects(text) <= Objects(text + more)
  {
    ScanConsistent(text);
    ScanConsistent(text + more);
    SpansPrefix(text, more);
    SlicesPrefix(text + more, Scan(text).spans, Scan(text + more).spans);
    SlicesExtend(text, text + more, Scan(text).spans);
  }

  lemma {:induction false} SliceAt(text: string, spans: seq<Span>, k: nat)
    requires InOrder(spans, |text|) && k < |spans|
    ensures |Slices(text, spans)| == |spans|
    ensures Slices(text, spans)[k] == text[spans[k].first..spans[k].stop]
  {
    if k < |spans| - 1 {
      SliceAt(text, spans[..|spans| - 1], k);
    } else {
      SlicesLength(text, spans[..k]);
    }
    SlicesLength(text, spans);
  }

  lemma {:induction false} SlicesLength(text: string, spans: seq<Span>)
    requires InOrder(spans, |text|)
    ensures |Slices(text, spans)| == |spans|
  {
    if spans != [] {
      SlicesLength(text, spans[..|spans| - 1]);
    }
  }

  // ---------- self-consistency ----------

  /** While an object is open, scanning from its brace reaches the same state. */
  lemma {:induction false} OpenObject(text: string)
    requires Scan(text).start.Some?
    ensures Scan(text).start.value < |text|
    ensures Scan(text[Scan(text).start.value..]) == State(Scan(text).control, Some(0), [])
  {
    var n := |text| - 1;
    var init, s := text[..n], Scan(text).start.value;
    var before := Scan(init);
    ScanConsistent(text);
    ScanConsistent(init);
    if Opens(before.control, text[n]) {
      assert text[s..] == [text[n]];
      ScanOne(text[n]);
    } else {
      OpenObject(init);
      assert text[s..][..n - s] == init[s..];
    }
  }

  lemma {:induction false} ScanOne(ch: char)
    ensures Scan([ch]) == Step(State(OUTSIDE, None, []), ch, 0)
  {
    assert [ch][..0] == "";
  }

  /** The stretch scans to itself. */
  ghost predicate ScansAlone(text: string, span: Span) {
    && span.first < span.stop <= |text|
    && Scan(text[span.first..span.stop]) == State(OUTSIDE, None, [Span(0, span.stop - span.first)])
  }

  /** A character adds at most one span, one that ends there and scans to itself. */
  lemma {:induction false} LastSpanScansAlone(text: string)
    requires text != ""
    ensures var spans, before := Scan(text).spans, Scan(text[..|text| - 1]).spans;
            || spans == before
            || (|spans| == |before| + 1 && spans[..|before|] == before && ScansAlone(text, spans[|before|]))
  {
    var n := |text| - 1;
    var init := text[..n];
    var before := Scan(init);
    if Closes(before.control, text[n]) && before.start.Some? {
      ScanConsistent(init);
      OpenObject(init);
      var first := before.start.value;
      assert text[first..n + 1][..n - first] == init[first..];
    }
  }

  /** Every span found scans to itself. */
  lemma {:induction false} SpanScansAlone(text: string, k: nat)
    requires k < |Scan(text).spans|
    ensures ScansAlone(text, Scan(text).spans[k])
  {
    hide Step;
    var init := text[..|text| - 1];
    LastSpanScansAlone(text);
    if k < |Scan(init).spans| {
      var span := Scan(init).spans[k];
      SpanScansAlone(init, k);
      assert text[span.first..span.stop] == init[span.first..span.stop];
    }
  }

  /** Scanning any returned object alone returns exactly that object. */
  lemma {:induction false} ObjectsSelfConsistent(text: string, k: nat)
    requires k < |Objects(text)|
    ensures Objects(Objects(text)[k]) == [Objects(text)[k]]
  {
    var spans := Scan(text).spans;
    ScanConsistent(text);
    SlicesLength(text, spans);
    SliceAt(text, spans, k);
    SpanScansAlone(text, k);
    WholeSlice(Objects(text)[k]);
  }

  lemma {:induction false} WholeSlice(t: string)
    requires t != ""
    ensures Slices(t, [Span(0, |t|)]) == [t]
  {
    var own := [Span(0, |t|)];
    assert own[..0] == [];
    assert t[0..|t|] == t;
    assert Slices(t, own) == Slices(t, own[..0]) + [t[0..|t|]];
  }

  // ---------- well-formed objects ----------

  function Advance(c: Control, t: string): Control {
    if t == "" then c else Turn(Advance(c, t[..|t| - 1]), t[|t| - 1])
  }

  /** The depth never falls below `d` while reading `t`. */
  ghost predicate StaysAbove(c: Control, t: string, d: nat) {
    if t == "" then c.depth >= d else StaysAbove(c, t[..|t| - 1], d) && Advance(c, t).depth >= d
  }

  lemma {:induction false} AdvanceConcat(c: Control, t: string, u: string, d: nat)
    ensures Advance(c, t + u) == Advance(Advance(c, t), u)
    ensures StaysAbove(c, t, d) && StaysAbove(Advance(c, t), u, d) ==> StaysAbove(c, t + u, d)
    decreases |u|
  {
    if u == "" {
      assert t + u == t;
    } else {
      AdvanceConcat(c, t, u[..|u| - 1], d);
      assert (t + u)[..|t + u| - 1] == t + u[..|u| - 1];
    }
  }

  /** Read inside any object, `t` leaves the state as it was and closes nothing it did not open. */
  ghost predicate Balanced(t: string) {
    forall d: nat :: d >= 1 ==> BalancedAt(t, d)
  }

  ghost predicate BalancedAt(t: string, d: nat) {
    Advance(Control(d, false, false), t) == Control(d, false, false) && StaysAbove(Control(d, false, false), t, d)
  }

  lemma {:induction false} BalancedConcat(t: string, u: string)
    requires Balanced(t) && Balanced(u)
    ensures Balanced(t + u)
  {
    forall d: nat | d >= 1
      ensures BalancedAt(t + u, d)
    {
      assert BalancedAt(t, d) && BalancedAt(u, d);
      AdvanceConcat(Control(d, false, false), t, u, d);
    }
  }

  /** Text without quotes or opening braces, and without closing ones. */
  predicate Plain(t: string) {
    forall i :: 0 <= i < |t| ==> t[i] != '"' && t[i] != '{' && t[i] != '}'
  }

  lemma {:induction false} PlainAt(t: string, d: nat)
    requires Plain(t)
    ensures BalancedAt(t, d)
  {
    if t != "" {
      PlainAt(t[..|t| - 1], d);
    }
  }

  lemma {:induction false} PlainBalanced(t: string)
    requires Plain(t)
    ensures Balanced(t)
  {
    forall d: nat | d >= 1
      ensures BalancedAt(t, d)
    {
      PlainAt(t, d);
    }
  }

  lemma {:induction false} BracedBalanced(t: string)
    requires Balanced(t)
    ensures Balanced("{" + t + "}")
  {
    forall d: nat | d >= 1
      ensures BalancedAt("{" + t + "}", d)
    {
      var c, deeper := Control(d, false, false), Control(d + 1, false, false);
      assert BalancedAt(t, d + 1);
      OneChar(c, '{', d);
      OneChar(deeper, '}', d);
      StaysAboveLower(deeper, t, d + 1, d);
      AdvanceConcat(c, "{", t, d);
      AdvanceConcat(c, "{" + t, "}", d);
    }
  }

  lemma {:induction false} OneChar(c: Control, ch: char, d: nat)
    ensures Advance(c, [ch]) == Turn(c, ch)
    ensures StaysAbove(c, [ch], d) <==> c.depth >= d && Turn(c, ch).depth >= d
  {
    assert [ch][..0] == "";
  }

  lemma {:induction false} StaysAboveLower(c: Control, t: string, d: nat, e: nat)
    requires StaysAbove(c, t, d) && e <= d
    ensures StaysAbove(c, t, e)
  {
    if t != "" {
      StaysAboveLower(c, t[..|t| - 1], d, e);
    }
  }

  // The grammar of RFC 8259: strings (section 7), objects (section 4) and arrays (section 5). Numbers
  // and literal names are any text without quotes and braces, which includes all of theirs.

  datatype StringChar = Unescaped(c: char) | Escaped(c: char) | Unicode(hex: string)

  datatype StringChars = NoChars | Chars(head: StringChar, tail: StringChars)

  datatype Value =
    | Scalar(text: string)
    | String(chars: StringChars)
    | EmptyArray(space: string)
    | Array(elements: Elements)
    | EmptyObject(space: string)
    | Object(members: Members)

  /** Values with the white space around them. */
  datatype Element = Element(before: string, value: Value, after: string)

  datatype Elements = OneElement(element: Element) | MoreElements(element: Element, rest: Elements)

  datatype Member = Member(before: string, name: StringChars, between: string, element: Element)

  datatype Members = OneMember(member: Member) | MoreMembers(member: Member, rest: Members)

  predicate IsSpace(t: string) {
    forall i :: 0 <= i < |t| ==> t[i] == ' ' || t[i] == '\t' || t[i] == '\n' || t[i] == '\r'
  }

  predicate IsHex(c: char) {
    '0' <= c <= '9' || 'a' <= c <= 'f' || 'A' <= c <= 'F'
  }

  predicate CharOk(c: StringChar) {
    match c
    case Unescaped(ch) => ch != '"' && ch != '\\'
    case Escaped(ch) => ch in "\"\\/bfnrt"
    case Unicode(hex) => |hex| == 4 && forall i :: 0 <= i < |hex| ==> IsHex(hex[i])
  }

  predicate CharsOk(cs: StringChars) {
    match cs
    case NoChars => true
    case Chars(c, tail) => CharOk(c) && CharsOk(tail)
  }

  predicate ValueOk(v: Value) {
    match v
    case Scalar(t) => Plain(t)
    case String(cs) => CharsOk(cs)
    case EmptyArray(space) => IsSpace(space)
    case Array(es) => ElementsOk(es)
    case EmptyObject(space) => IsSpace(space)
    case Object(ms) => MembersOk(ms)
  }

  predicate ElementOk(e: Element) {
    IsSpace(e.before) && ValueOk(e.value) && IsSpace(e.after)
  }

  predicate ElementsOk(es: Elements) {
    match es
    case OneElement(e) => ElementOk(e)
    case MoreElements(e, rest) => ElementOk(e) && ElementsOk(rest)
  }

  predicate MemberOk(m: Member) {
    IsSpace(m.before) && CharsOk(m.name) && IsSpace(m.between) && ElementOk(m.element)
  }

  predicate MembersOk(ms: Members) {
    match ms
    case OneMember(m) => MemberOk(m)
    case MoreMembers(m, rest) => MemberOk(m) && MembersOk(rest)
  }

  function CharText(c: StringChar): string {
    match c
    case Unescaped(ch) => [ch]
    case Escaped(ch) => ['\\', ch]
    case Unicode(hex) => "\\u" + hex
  }

  function CharsText(cs: StringChars): string {
    match cs
    case NoChars => ""
    case Chars(c, tail) => CharText(c) + CharsText(tail)
  }

  function StringText(cs: StringChars): string {
    "\"" + CharsText(cs) + "\""
  }

  function ValueText(v: Value): string {
    match v
    case Scalar(t) => t
    case String(cs) => StringText(cs)
    case EmptyArray(space) => "[" + space + "]"
    case Array(es) => "[" + ElementsText(es) + "]"
    case EmptyObject(space) => "{" + space + "}"
    case Object(ms) => "{" + MembersText(ms) + "}"
  }

  function ElementText(e: Element): string {
    e.before + ValueText(e.value) + e.after
  }

  function ElementsText(es: Elements): string {
    match es
    case OneElement(e) => ElementText(e)
    case MoreElements(e, rest) => ElementText(e) + "," + ElementsText(rest)
  }

  function MemberText(m: Member): string {
    m.before + StringText(m.name) + m.between + ":" + ElementText(m.element)
  }

  function MembersText(ms: Members): string {
    match ms
    case OneMember(m) => MemberText(m)
    case MoreMembers(m, rest) => MemberText(m) + "," + MembersText(rest)
  }

  /** Inside a string, `t` stays inside it. */
  ghost predicate StaysInString(t: string, d: nat) {
    Advance(Control(d, true, false), t) == Control(d, true, false) && StaysAbove(Control(d, true, false), t, d)
  }

  lemma {:induction false} UnescapedStays(t: string, d: nat)
    requires forall i :: 0 <= i < |t| ==> t[i] != '"' && t[i] != '\\'
    ensures StaysInString(t, d)
  {
    if t != "" {
      UnescapedStays(t[..|t| - 1], d);
    }
  }

  lemma {:induction false} CharStays(c: StringChar, d: nat)
    requires CharOk(c)
    ensures StaysInString(CharText(c), d)
  {
    match c
    case Unescaped(ch) =>
      UnescapedStays([ch], d);
    case Escaped(ch) =>
      OneChar(Control(d, true, false), '\\', d);
      OneChar(Control(d, true, true), ch, d);
      AdvanceConcat(Control(d, true, false), ['\\'], [ch], d);
      assert ['\\', ch] == ['\\'] + [ch];
    case Unicode(hex) =>
      OneChar(Control(d, true, false), '\\', d);
      OneChar(Control(d, true, true), 'u', d);
      AdvanceConcat(Control(d, true, false), "\\", "u", d);
      assert "\\u" == "\\" + "u";
      UnescapedStays(hex, d);
      AdvanceConcat(Control(d, true, false), "\\u", hex, d);
  }

  lemma {:induction false} CharsStay(cs: StringChars, d: nat)
    requires CharsOk(cs)
    ensures StaysInString(CharsText(cs), d)
  {
    match cs
    case NoChars =>
    case Chars(c, tail) =>
      CharStays(c, d);
      CharsStay(tail, d);
      AdvanceConcat(Control(d, true, false), CharText(c), CharsText(tail), d);
  }

  lemma {:induction false} StringBalanced(cs: StringChars)
    requires CharsOk(cs)
    ensures Balanced(StringText(cs))
  {
    forall d: nat | d >= 1
      ensures BalancedAt(StringText(cs), d)
    {
      var outside, inside := Control(d, false, false), Control(d, true, false);
      CharsStay(cs, d);
      OneChar(outside, '"', d);
      OneChar(inside, '"', d);
      AdvanceConcat(outside, "\"", CharsText(cs), d);
      AdvanceConcat(outside, "\"" + CharsText(cs), "\"", d);
    }
  }

  lemma {:induction false} SpaceBalanced(t: string)
    requires IsSpace(t)
    ensures Balanced(t)
  {
    PlainBalanced(t);
  }

  /** The text of every well-formed value is balanced. */
  lemma {:induction false} ValueBalanced(v: Value)
    requires ValueOk(v)
    ensures Balanced(ValueText(v))
    decreases v
  {
    PlainBalanced("[");
    PlainBalanced("]");
    match v
    case Scalar(t) =>
      PlainBalanced(t);
    case String(cs) =>
      StringBalanced(cs);
    case EmptyArray(space) =>
      SpaceBalanced(space);
      BalancedConcat("[", space);
      BalancedConcat("[" + space, "]");
    case Array(es) =>
      ElementsBalanced(es);
      BalancedConcat("[", ElementsText(es));
      BalancedConcat("[" + ElementsText(es), "]");
    case EmptyObject(space) =>
      SpaceBalanced(space);
      BracedBalanced(space);
    case Object(ms) =>
      MembersBalanced(ms);
      BracedBalanced(MembersText(ms));
  }

  lemma {:induction false} ElementBalanced(e: Element)
    requires ElementOk(e)
    ensures Balanced(ElementText(e))
    decreases e
  {
    SpaceBalanced(e.before);
    SpaceBalanced(e.after);
    ValueBalanced(e.value);
    BalancedConcat(e.before, ValueText(e.value));
    BalancedConcat(e.before + ValueText(e.value), e.after);
  }

  lemma {:induction false} ElementsBalanced(es: Elements)
    requires ElementsOk(es)
    ensures Balanced(ElementsText(es))
    decreases es
  {
    ElementBalanced(es.element);
    match es
    case OneElement(e) =>
    case MoreElements(e, rest) =>
      PlainBalanced(",");
      ElementsBalanced(rest);
      BalancedConcat(ElementText(e), ",");
      BalancedConcat(ElementText(e) + ",", ElementsText(rest));
  }

  lemma {:induction false} MemberBalanced(m: Member)
    requires MemberOk(m)
    ensures Balanced(MemberText(m))
    decreases m
  {
    SpaceBalanced(m.before);
    StringBalanced(m.name);
    SpaceBalanced(m.between);
    PlainBalanced(":");
    ElementBalanced(m.element);
    BalancedConcat(m.before, StringText(m.name));
    BalancedConcat(m.before + StringText(m.name), m.between);
    BalancedConcat(m.before + StringText(m.name) + m.between, ":");
    BalancedConcat(m.before + StringText(m.name) + m.between + ":", ElementText(m.element));
  }

  lemma {:induction false} MembersBalanced(ms: Members)
    requires MembersOk(ms)
    ensures Balanced(MembersText(ms))
    decreases ms
  {
    MemberBalanced(ms.member);
    match ms
    case OneMember(m) =>
    case MoreMembers(m, rest) =>
      PlainBalanced(",");
      MembersBalanced(rest);
      BalancedConcat(MemberText(m), ",");
      BalancedConcat(MemberText(m) + ",", MembersText(rest));
  }

  // ---------- objects between filler ----------

  /** The scanner's control is the control machine. */
  lemma {:induction false} ScanControl(text: string, more: string)
    ensures Scan(text + more).control == Advance(Scan(text).control, more)
    decreases |more|
  {
    if more == "" {
      assert text + more == text;
    } else {
      ScanControl(text, more[..|more| - 1]);
      ScanStep(text, more);
    }
  }

  /** Text that stays inside the open object neither finds nor forgets anything. */
  lemma {:induction false} InsideKeeps(text: string, body: string)
    requires StaysAbove(Scan(text).control, body, 1)
    ensures Scan(text + body).spans == Scan(text).spans && Scan(text + body).start == Scan(text).start
    decreases |body|
  {
    if body == "" {
      assert text + body == text;
    } else {
      var init := body[..|body| - 1];
      InsideKeeps(text, init);
      ScanStep(text, body);
      ScanControl(text, init);
      AboveAtEnd(Scan(text).control, init, 1);
    }
  }

  lemma {:induction false} AboveAtEnd(c: Control, t: string, d: nat)
    requires StaysAbove(c, t, d)
    ensures Advance(c, t).depth >= d
  {
  }

  /** Between objects: nothing open. */
  ghost predicate Idle(text: string) {
    Scan(text).control == OUTSIDE
  }

  lemma {:induction false} EnterObject(text: string)
    requires Idle(text)
    ensures Scan(text + "{") == State(Control(1, false, false), Some(|text|), Scan(text).spans)
  {
    ScanAppend(text, '{');
  }

  lemma {:induction false} LeaveObject(text: string, s: nat)
    requires Scan(text).control == Control(1, false, false) && Scan(text).start == Some(s)
    ensures Scan(text + "}") == State(OUTSIDE, None, Scan(text).spans + [Span(s, |text| + 1)])
  {
    ScanAppend(text, '}');
  }

  lemma {:induction false} CrossBody(entered: string, body: string)
    requires Scan(entered).control == Control(1, false, false) && Balanced(body)
    ensures Scan(entered + body) == Scan(entered)
  {
    assert BalancedAt(body, 1);
    InsideKeeps(entered, body);
    ScanControl(entered, body);
  }

  /** A braced balanced text met between objects is found, and leaves the scanner between objects. */
  lemma {:induction false} ObjectFound(text: string, body: string)
    requires Idle(text) && Balanced(body)
    ensures Scan(text + "{" + body + "}")
         == State(OUTSIDE, None, Scan(text).spans + [Span(|text|, |text| + |body| + 2)])
  {
    EnterObject(text);
    CrossBody(text + "{", body);
    LeaveObject(text + "{" + body, |text|);
  }

  lemma {:induction false} ScanAppend(text: string, ch: char)
    ensures Scan(text + [ch]) == Step(Scan(text), ch, |text|)
  {
    assert (text + [ch])[..|text|] == text;
  }

  /** Text with no quotes and no opening braces; stray closing braces are harmless. */
  predicate Filler(t: string) {
    forall i :: 0 <= i < |t| ==> t[i] != '"' && t[i] != '{'
  }

  lemma {:induction false} FillerSkipped(text: string, filler: string)
    requires Idle(text) && Filler(filler)
    ensures Idle(text + filler) && Scan(text + filler).spans == Scan(text).spans
    decreases |filler|
  {
    if filler == "" {
      assert text + filler == text;
    } else {
      FillerSkipped(text, filler[..|filler| - 1]);
      ScanStep(text, filler);
    }
  }

  /** An object with the filler in front of it. */
  datatype Piece = Piece(filler: string, payload: Value)

  predicate PieceOk(piece: Piece) {
    Filler(piece.filler) && ValueOk(piece.payload) && (piece.payload.Object? || piece.payload.EmptyObject?)
  }

  predicate PiecesOk(pieces: seq<Piece>) {
    forall i :: 0 <= i < |pieces| ==> PieceOk(pieces[i])
  }

  function PiecesText(pieces: seq<Piece>): string {
    if pieces == [] then ""
    else
      var last := pieces[|pieces| - 1];
      PiecesText(pieces[..|pieces| - 1]) + last.filler + ValueText(last.payload)
  }

  function ObjectTexts(pieces: seq<Piece>): seq<string> {
    if pieces == [] then []
    else ObjectTexts(pieces[..|pieces| - 1]) + [ValueText(pieces[|pieces| - 1].payload)]
  }

  function Body(v: Value): string
    requires v.Object? || v.EmptyObject?
  {
    if v.Object? then MembersText(v.members) else v.space
  }

  lemma {:induction false} ValueFound(text: string, v: Value)
    requires Idle(text) && ValueOk(v) && (v.Object? || v.EmptyObject?)
    ensures Scan(text + ValueText(v))
         == State(OUTSIDE, None, Scan(text).spans + [Span(|text|, |text| + |ValueText(v)|)])
  {
    var body := Body(v);
    BodyBalanced(v);
    ObjectFound(text, body);
    BodyText(v);
    Regroup(text, body);
  }

  lemma {:induction false} BodyBalanced(v: Value)
    requires ValueOk(v) && (v.Object? || v.EmptyObject?)
    ensures Balanced(Body(v))
  {
    if v.Object? {
      MembersBalanced(v.members);
    } else {
      SpaceBalanced(v.space);
    }
  }

  lemma {:induction false} BodyText(v: Value)
    requires v.Object? || v.EmptyObject?
    ensures ValueText(v) == "{" + Body(v) + "}" && |ValueText(v)| == |Body(v)| + 2
  {
  }

  lemma {:induction false} Regroup(text: string, body: string)
    ensures text + ("{" + body + "}") == text + "{" + body + "}"
  {
  }

  /** The slices of a text continued by one more object. */
  lemma {:induction false} SlicesContinued(before: string, text: string, spans: seq<Span>, span: Span)
    requires InOrder(spans, |before|) && before <= text
    requires |before| <= span.first < span.stop <= |text|
    ensures InOrder(spans + [span], |text|)
    ensures Slices(text, spans + [span]) == Slices(before, spans) + [text[span.first..span.stop]]
  {
    SlicesExtend(before, text, spans);
    SlicesAppend(text, spans, span);
  }

  lemma {:induction false} LastPart(lead: string, found: string)
    ensures (lead + found)[|lead|..|lead| + |found|] == found
  {
  }

  /** One more piece adds its object to what is found. */
  lemma {:induction false} PieceFound(before: string, piece: Piece)
    requires Idle(before) && PieceOk(piece)
    ensures Idle(before + piece.filler + ValueText(piece.payload))
    ensures Objects(before + piece.filler + ValueText(piece.payload)) == Objects(before) + [ValueText(piece.payload)]
  {
    hide Slices, ValueText, Scan, ValueOk, Filler, InOrder;
    var found, lead := ValueText(piece.payload), before + piece.filler;
    ScanConsistent(before);
    FillerSkipped(before, piece.filler);
    ValueFound(lead, piece.payload);
    BodyText(piece.payload);
    LastPart(lead, found);
    SlicesContinued(before, lead + found, Scan(before).spans, Span(|lead|, |lead| + |found|));
  }

  lemma {:induction false} PiecesFound(pieces: seq<Piece>)
    requires PiecesOk(pieces)
    ensures Idle(PiecesText(pieces)) && Objects(PiecesText(pieces)) == ObjectTexts(pieces)
  {
    if pieces != [] {
      var init, last := pieces[..|pieces| - 1], pieces[|pieces| - 1];
      PiecesFound(init);
      PieceFound(PiecesText(init), last);
    }
  }

  /** On well-formed objects between and after filler, the scanner returns exactly those objects. */
  lemma {:induction false} ObjectsFound(pieces: seq<Piece>, tail: string)
    requires PiecesOk(pieces) && Filler(tail)
    ensures Objects(PiecesText(pieces) + tail) == ObjectTexts(pieces)
  {
    PiecesFound(pieces);
    FillerSkipped(PiecesText(pieces), tail);
    ScanConsistent(PiecesText(pieces));
    SlicesExtend(PiecesText(pieces), PiecesText(pieces) + tail, Scan(PiecesText(pieces)).spans);
  }
}
