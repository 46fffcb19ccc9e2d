module Basics {
  datatype Option<T> = None | Some(value: T)

  function Max(a: int, b: int): int { if a < b then b else a }

  function Min(a: int, b: int): int { if a < b then a else b }

  /** The parts with single spaces between them. */
  function JoinParts(parts: seq<string>): string {
    if parts == [] then ""
    else if |parts| == 1 then parts[0]
    else JoinParts(parts[..|parts| - 1]) + " " + parts[|parts| - 1]
  }

  /** One part is itself, and two lists of parts are joined by one space. */
  lemma {:induction false} JoinPartsConcat(a: seq<string>, b: seq<string>)
    requires a != [] && b != []
    ensures JoinParts(a + b) == JoinParts(a) + " " + JoinParts(b)
    ensures |a| == 1 ==> JoinParts(a) == a[0]
    ensures JoinParts([]) == ""
    decreases |b|
  {
    assert |b| == 1 ==> JoinParts(b) == b[0];
    hide JoinParts;
    var init, last := b[..|b| - 1], b[|b| - 1];
    JoinPartsSnoc(a + init, last);
    assert a + b == (a + init) + [last];
    assert b == init + [last];
    if init == [] {
      assert a + init == a;
    } else {
      JoinPartsConcat(a, init);
      JoinPartsSnoc(init, last);
      SameText(JoinParts(a), JoinParts(init), last);
    }
  }

  lemma {:induction false} JoinPartsSnoc(parts: seq<string>, last: string)
    requires parts != []
    ensures JoinParts(parts + [last]) == JoinParts(parts) + " " + last
  {
    assert (parts + [last])[..|parts|] == parts;
  }

  lemma {:induction false} SameText(a: string, b: string, c: string)
    ensures (a + " " + b) + " " + c == a + " " + (b + " " + c)
  {
  }
}
