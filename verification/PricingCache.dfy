/** The bounded cache of model prices in front of the pricing helper. Times are seconds of the monotonic clock. */
module PricingCache {
  import opened Basics

  const MAX_CACHED_MODELS := 256
  const CACHE_TTL_SECONDS := 3600.0

  /** A model with its service tier. */
  datatype Key = Key(model: string, tier: Option<string>)

  datatype Rates = Rates(input: real, output: real, cached: real)

  const ZERO_RATES := Rates(0.0, 0.0, 0.0)

  datatype Entry = Entry(at: real, rates: Rates)

  /** What the helper printed, as far as the client looks at it; numbers are finite ones. */
  datatype Json = List(items: seq<Json>) | Bool | Number(value: real) | NotFinite | Other

  /** The helper could not be run, timed out, failed or printed something that is no JSON; or it printed a value. */
  datatype Reply = Failed | Printed(payload: Json)

  /** An answer the helper gave, with the time it was stored. */
  datatype Answer = Answer(key: Key, at: real, rates: Rates)

  // ---------- checking a reply ----------

  predicate ValidEntry(entry: Json) {
    && entry.List? && |entry.items| == 3
    && entry.items[0].Number? && entry.items[1].Number? && entry.items[2].Number?
  }

  predicate ValidReply(reply: Reply, count: nat) {
    && reply.Printed? && reply.payload.List? && |reply.payload.items| == count
    && forall i :: 0 <= i < count ==> ValidEntry(reply.payload.items[i])
  }

  function RatesOf(entry: Json): Rates
    requires ValidEntry(entry)
  {
    Rates(entry.items[0].value, entry.items[1].value, entry.items[2].value)
  }

  /** The three numbers are the prices of input, of output and of cached input, in this order. */
  ghost predicate Reads(rates: Rates, entry: Json) {
    && entry.List? && |entry.items| == 3
    && entry.items[0] == Number(rates.input) && entry.items[1] == Number(rates.output)
    && entry.items[2] == Number(rates.cached)
  }

  method ResolveReply(reply: Reply, count: nat) returns (resolved: Option<seq<Rates>>)
    ensures resolved.Some? <==> ValidReply(reply, count)
    ensures resolved.Some? <==>
              && reply.Printed? && reply.payload.List? && |reply.payload.items| == count
              && forall i :: 0 <= i < count ==>
                   && reply.payload.items[i].List? && |reply.payload.items[i].items| == 3
                   && forall j :: 0 <= j < 3 ==> reply.payload.items[i].items[j].Number?
    ensures resolved.Some? ==> |resolved.value| == count
    ensures resolved.Some? ==> forall i :: 0 <= i < count ==> resolved.value[i] == RatesOf(reply.payload.items[i])
    ensures resolved.Some? ==> forall i :: 0 <= i < count ==> Reads(resolved.value[i], reply.payload.items[i])
  {
    if reply.Failed? {
      return None;
    }
    if !reply.payload.List? || |reply.payload.items| != count {
      return None;
    }
    var payload := reply.payload.items;
    var rates := [];
    for i := 0 to |payload|
      invariant |rates| == i
      invariant forall k :: 0 <= k < i ==> ValidEntry(payload[k]) && rates[k] == RatesOf(payload[k])
      invariant forall k :: 0 <= k < i ==> Reads(rates[k], payload[k])
    {
      var entry := payload[i];
      if !entry.List? || |entry.items| != 3 || exists j :: 0 <= j < 3 && !entry.items[j].Number? {
        assert !ValidEntry(payload[i]);
        return None;
      }
      assert entry.items[0].Number? && entry.items[1].Number? && entry.items[2].Number?;
      rates := rates + [Rates(entry.items[0].value, entry.items[1].value, entry.items[2].value)];
    }
    return Some(rates);
  }

  // ---------- order of use ----------

  function Without(keys: seq<Key>, k: Key): seq<Key> {
    if keys == [] then []
    else
      var before, last := Without(keys[..|keys| - 1], k), keys[|keys| - 1];
      if last == k then before else before + [last]
  }

  /** Moves the key to the end, or puts it there. */
  function Touch(keys: seq<Key>, k: Key): seq<Key> {
    Without(keys, k) + [k]
  }

  /** The last n elements. */
  function Tail(keys: seq<Key>, n: nat): seq<Key> {
    if |keys| <= n then keys else keys[|keys| - n..]
  }

  /** The distinct keys of a history, by their last use. */
  function Recent(history: seq<Key>): seq<Key> {
    if history == [] then [] else Touch(Recent(history[..|history| - 1]), history[|history| - 1])
  }

  /** The position of the last use of a key, or -1. */
  function LastUse(history: seq<Key>, k: Key): int {
    if history == [] then -1
    else if history[|history| - 1] == k then |history| - 1
    else LastUse(history[..|history| - 1], k)
  }

  ghost predicate Distinct(keys: seq<Key>) {
    forall i, j :: 0 <= i < j < |keys| ==> keys[i] != keys[j]
  }

  lemma {:induction false} WithoutMembers(keys: seq<Key>, k: Key, x: Key)
    ensures x in Without(keys, k) <==> x in keys && x != k
  {
    if keys != [] {
      var init, last := keys[..|keys| - 1], keys[|keys| - 1];
      WithoutMembers(init, k, x);
      assert x in keys <==> x in init || x == last;
    }
  }

  lemma {:induction false} WithoutDistinct(keys: seq<Key>, k: Key)
    requires Distinct(keys)
    ensures Distinct(Without(keys, k))
    ensures |Without(keys, k)| == if k in keys then |keys| - 1 else |keys|
    ensures k !in keys ==> Without(keys, k) == keys
  {
    if keys != [] {
      var init, last := keys[..|keys| - 1], keys[|keys| - 1];
      WithoutDistinct(init, k);
      WithoutMembers(init, k, last);
      assert k in keys <==> k in init || k == last;
      assert last !in init;
    }
  }

  lemma {:induction false} TouchMembers(keys: seq<Key>, k: Key)
    requires Distinct(keys)
    ensures Distinct(Touch(keys, k)) && (forall x :: x in Touch(keys, k) <==> x in keys || x == k)
    ensures |Touch(keys, k)| == if k in keys then |keys| else |keys| + 1
  {
    WithoutDistinct(keys, k);
    forall x
      ensures x in Touch(keys, k) <==> x in keys || x == k
    {
      WithoutMembers(keys, k, x);
    }
    WithoutMembers(keys, k, k);
  }

  lemma {:induction false} RecentMembers(history: seq<Key>)
    ensures Distinct(Recent(history)) && forall x :: x in Recent(history) <==> x in history
  {
    if history != [] {
      RecentMembers(history[..|history| - 1]);
      TouchMembers(Recent(history[..|history| - 1]), history[|history| - 1]);
    }
  }

  lemma {:induction false} TailSnoc(keys: seq<Key>, n: nat)
    requires keys != [] && n > 0
    ensures Tail(keys, n) == Tail(keys[..|keys| - 1], n - 1) + [keys[|keys| - 1]]
  {
  }

  lemma {:induction false} TailOfTail(keys: seq<Key>, n: nat)
    ensures Tail(Tail(keys, n), n) == Tail(keys, n)
    ensures forall k :: k in Tail(keys, n) ==> k in keys
    ensures Distinct(keys) ==> Distinct(Tail(keys, n))
  {
  }

  lemma {:induction false} WithoutSnoc(keys: seq<Key>, last: Key, k: Key)
    ensures Without(keys + [last], k) == if last == k then Without(keys, k) else Without(keys, k) + [last]
  {
    assert (keys + [last])[..|keys|] == keys;
  }

  lemma {:induction false} TailOfSnoc(keys: seq<Key>, last: Key, n: nat)
    requires n > 0
    ensures Tail(keys + [last], n) == Tail(keys, n - 1) + [last]
  {
    assert (keys + [last])[..|keys|] == keys;
    TailSnoc(keys + [last], n);
  }

  lemma {:induction false} TailAlike(a: seq<Key>, b: seq<Key>, last: Key, n: nat)
    requires n > 0 && Tail(a, n - 1) == Tail(b, n - 1)
    ensures Tail(a + [last], n) == Tail(b + [last], n)
  {
    hide Tail;
    TailOfSnoc(a, last, n);
    TailOfSnoc(b, last, n);
  }

  lemma {:induction false} TailWithoutLast(init: seq<Key>, k: Key, n: nat)
    requires k !in init && Distinct(init) && n > 1
    ensures Tail(Without(init + [k], k), n - 1) == Tail(Without(Tail(init, n - 1) + [k], k), n - 1)
  {
    hide Tail, Without;
    TailOfTail(init, n - 1);
    WithoutDistinct(init, k);
    WithoutDistinct(Tail(init, n - 1), k);
    WithoutSnoc(init, k, k);
    WithoutSnoc(Tail(init, n - 1), k, k);
  }

  /** Forgetting all but the last n commutes with taking a key out, as far as the last n - 1 go. */
  lemma {:induction false} TailWithout(keys: seq<Key>, k: Key, n: nat)
    requires Distinct(keys) && n > 0
    ensures Tail(Without(keys, k), n - 1) == Tail(Without(Tail(keys, n), k), n - 1)
  {
    if keys != [] && n > 1 {
      hide Tail, Without;
      var init, last := keys[..|keys| - 1], keys[|keys| - 1];
      assert keys == init + [last] && last !in init;
      TailSnoc(keys, n);
      if last == k {
        TailWithoutLast(init, k, n);
      } else {
        TailWithout(init, k, n - 1);
        TailAlike(Without(init, k), Without(Tail(init, n - 1), k), last, n - 1);
        WithoutSnoc(init, last, k);
        WithoutSnoc(Tail(init, n - 1), last, k);
      }
    }
  }

  /** Using a key, and then forgetting all but the last n. */
  lemma {:induction false} TailTouch(keys: seq<Key>, k: Key, n: nat)
    requires Distinct(keys) && n > 0
    ensures Tail(Touch(keys, k), n) == Tail(Touch(Tail(keys, n), k), n)
  {
    hide Tail, Without;
    TailWithout(keys, k, n);
    TailOfSnoc(Without(keys, k), k, n);
    TailOfSnoc(Without(Tail(keys, n), k), k, n);
  }

  lemma {:induction false} LastUseBounds(history: seq<Key>, k: Key)
    ensures LastUse(history, k) < |history| && (k in history <==> LastUse(history, k) >= 0)
  {
    if history != [] {
      LastUseBounds(history[..|history| - 1], k);
      assert k in history <==> k in history[..|history| - 1] || k == history[|history| - 1];
    }
  }

  /** Every key comes before those used after it. */
  ghost predicate ByUse(keys: seq<Key>, history: seq<Key>) {
    forall i, j :: 0 <= i < j < |keys| ==> LastUse(history, keys[i]) < LastUse(history, keys[j])
  }

  lemma {:induction false} WithoutByUse(keys: seq<Key>, history: seq<Key>, k: Key)
    requires ByUse(keys, history)
    ensures ByUse(Without(keys, k), history)
  {
    if keys != [] {
      var init, last := keys[..|keys| - 1], keys[|keys| - 1];
      WithoutByUse(init, history, k);
      forall i | 0 <= i < |Without(init, k)|
        ensures LastUse(history, Without(init, k)[i]) < LastUse(history, last)
      {
        WithoutMembers(init, k, Without(init, k)[i]);
      }
    }
  }

  lemma {:induction false} RecentByUse(history: seq<Key>)
    ensures ByUse(Recent(history), history)
  {
    if history != [] {
      var init, last := history[..|history| - 1], history[|history| - 1];
      var older := Without(Recent(init), last);
      RecentByUse(init);
      WithoutByUse(Recent(init), init, last);
      forall i | 0 <= i < |older|
        ensures LastUse(history, older[i]) == LastUse(init, older[i]) < |init|
      {
        WithoutMembers(Recent(init), last, older[i]);
        LastUseBounds(init, older[i]);
      }
    }
  }

  /** The cached keys are the most recently used ones: the order is by last use, and a key used but no longer
      cached was last used before every cached one, of which there are then as many as fit. */
  lemma {:induction false} MostRecentlyUsed(history: seq<Key>, n: nat)
    ensures var cached := Tail(Recent(history), n);
            && Distinct(cached) && ByUse(cached, history) && |cached| <= n && (forall k :: k in cached ==> k in history)
            && (forall gone :: gone in history && gone !in cached ==>
                  |cached| == n && forall k :: k in cached ==> LastUse(history, gone) < LastUse(history, k))
  {
    var all, cached := Recent(history), Tail(Recent(history), n);
    RecentMembers(history);
    RecentByUse(history);
    TailOfTail(all, n);
    TailByUse(all, history, n);
    forall gone | gone in history && gone !in cached
      ensures |cached| == n && forall k :: k in cached ==> LastUse(history, gone) < LastUse(history, k)
    {
      DroppedEarlier(all, history, n, gone);
    }
  }

  lemma {:induction false} TailByUse(keys: seq<Key>, history: seq<Key>, n: nat)
    requires ByUse(keys, history)
    ensures ByUse(Tail(keys, n), history)
  {
  }

  lemma {:induction false} DroppedEarlier(keys: seq<Key>, history: seq<Key>, n: nat, gone: Key)
    requires ByUse(keys, history) && gone in keys && gone !in Tail(keys, n)
    ensures |Tail(keys, n)| == n && forall k :: k in Tail(keys, n) ==> LastUse(history, gone) < LastUse(history, k)
  {
    var i :| 0 <= i < |keys| && keys[i] == gone;
    TailHas(keys, n, i);
  }

  lemma {:induction false} TailHas(keys: seq<Key>, n: nat, i: nat)
    requires i < |keys|
    ensures |keys| - n <= i ==> keys[i] in Tail(keys, n)
  {
    var kept := Tail(keys, n);
    if |keys| - n <= i {
      assert kept[i - (|keys| - |kept|)] == keys[i];
    }
  }

  // ---------- one lookup ----------

  predicate Fresh(entries: map<Key, Entry>, k: Key, now: real) {
    k in entries && now - entries[k].at < 3600.0
  }

  /** The models asked for, each once, in order of first mention. */
  function Unique(models: seq<Key>): seq<Key> {
    if models == [] then []
    else
      var before, last := Unique(models[..|models| - 1]), models[|models| - 1];
      if last in before then before else before + [last]
  }

  /** Those that are fresh, or those that are not. */
  function Select(keys: seq<Key>, entries: map<Key, Entry>, now: real, want: bool): seq<Key> {
    if keys == [] then []
    else
      var before, last := Select(keys[..|keys| - 1], entries, now, want), keys[|keys| - 1];
      if Fresh(entries, last, now) == want then before + [last] else before
  }

  function Hits(models: seq<Key>, entries: map<Key, Entry>, now: real): seq<Key> {
    Select(Unique(models), entries, now, true)
  }

  function Misses(models: seq<Key>, entries: map<Key, Entry>, now: real): seq<Key> {
    Select(Unique(models), entries, now, false)
  }

  lemma {:induction false} UniqueKeys(models: seq<Key>)
    ensures Distinct(Unique(models)) && forall k :: k in Unique(models) <==> k in models
  {
    if models != [] {
      var init, last := models[..|models| - 1], models[|models| - 1];
      UniqueKeys(init);
      assert forall k :: k in models <==> k in init || k == last;
    }
  }

  lemma {:induction false} SelectKeys(keys: seq<Key>, entries: map<Key, Entry>, now: real, want: bool)
    requires Distinct(keys)
    ensures Distinct(Select(keys, entries, now, want))
    ensures forall k :: k in Select(keys, entries, now, want) <==> k in keys && Fresh(entries, k, now) == want
  {
    if keys != [] {
      var init, last := keys[..|keys| - 1], keys[|keys| - 1];
      SelectKeys(init, entries, now, want);
      assert forall k :: k in keys <==> k in init || k == last;
      assert last !in init;
    }
  }

  /** The helper is asked for each model that is not fresh, once. */
  lemma {:induction false} MissesAre(models: seq<Key>, entries: map<Key, Entry>, now: real)
    ensures var missing := Misses(models, entries, now);
            Distinct(missing) && forall k :: k in missing <==> k in models && !Fresh(entries, k, now)
    ensures forall k :: k in Misses(models, entries, now) <==>
              k in models && (k in entries ==> now - entries[k].at >= 3600.0)
    ensures forall k :: k in Hits(models, entries, now) <==> k in models && Fresh(entries, k, now)
    ensures forall k :: k in Hits(models, entries, now) <==>
              k in models && k in entries && now - entries[k].at < 3600.0
  {
    UniqueKeys(models);
    SelectKeys(Unique(models), entries, now, false);
    SelectKeys(Unique(models), entries, now, true);
  }

  method UniqueModels(models: seq<Key>) returns (unique: seq<Key>)
    ensures unique == Unique(models)
  {
    unique := [];
    for i := 0 to |models|
      invariant unique == Unique(models[..i])
    {
      assert models[..i + 1][..i] == models[..i];
      if models[i] !in unique {
        unique := unique + [models[i]];
      }
    }
    assert models[..|models|] == models;
  }

  /** The cache, with what has happened to it since it was empty: the keys used, in order, and the answers
      the helper gave. */
  class Cache {
    var entries: map<Key, Entry>
    var order: seq<Key>
    ghost var used: seq<Key>
    ghost var answers: set<Answer>
    ghost var clock: real

    /** The cached keys are the 256 used last, in order of use, and all they hold was answered by the helper. */
    ghost predicate Valid()
      reads this
    {
      && (forall k :: k in entries <==> k in order)
      && order == Tail(Recent(used), 256)
      && (forall k :: k in entries ==> Answer(k, entries[k].at, entries[k].rates) in answers && entries[k].at <= clock)
    }

    constructor ()
      ensures Valid() && entries == map[] && used == [] && answers == {}
    {
      entries, order, used, answers, clock := map[], [], [], {}, 0.0;
    }

    method MoveToEnd(k: Key)
      requires Valid() && k in entries
      modifies this`order, this`used
      ensures Valid() && used == old(used) + [k]
    {
      hide Recent, Touch;
      UsedAgain(used, k);
      KeysInOrder(used, k);
      order := Touch(order, k);
      used := used + [k];
    }

    /** Drops keys from the front while there are too many. */
    method Evict()
      requires Distinct(order) && forall x :: x in entries <==> x in order
      modifies this`entries, this`order
      ensures order == Tail(old(order), 256)
      ensures forall x :: x in entries <==> x in order
      ensures forall x :: x in entries ==> x in old(entries) && entries[x] == old(entries[x])
    {
      while |order| > MAX_CACHED_MODELS
        invariant Distinct(order) && Tail(order, MAX_CACHED_MODELS) == Tail(old(order), MAX_CACHED_MODELS)
        invariant forall x :: x in entries <==> x in order
        invariant forall x :: x in entries ==> x in old(entries) && entries[x] == old(entries[x])
      {
        TailDrop(order, MAX_CACHED_MODELS);
        entries := entries - {order[0]};
        order := order[1..];
      }
    }

    /** Stores an answer and evicts the keys used longest ago. */
    method Store(k: Key, at: real, rates: Rates)
      requires Valid() && clock <= at
      modifies this
      ensures Valid() && used == old(used) + [k] && answers == old(answers) + {Answer(k, at, rates)} && clock == at
      ensures forall x :: x in entries ==>
                if x == k then entries[x] == Entry(at, rates) else x in old(entries) && entries[x] == old(entries[x])
    {
      hide Recent, Tail, Touch;
      UsedAgain(used, k);
      KeysInOrder(used, k);
      entries := entries[k := Entry(at, rates)];
      order := Touch(order, k);
      Evict();
      used := used + [k];
      answers := answers + {Answer(k, at, rates)};
      clock := at;
    }

    /** Answers what is fresh and lists what is not. */
    method ServeFresh(models: seq<Key>, now: real) returns (result: map<Key, Rates>, missing: seq<Key>)
      requires Valid()
      modifies this`order, this`used
      ensures Valid() && used == old(used) + Hits(models, entries, now) && missing == Misses(models, entries, now)
      ensures forall k :: k in result <==> k in models && Fresh(entries, k, now)
      ensures forall k :: k in result ==>
                k in entries && result[k] == entries[k].rates && Backed(answers, k, result[k], now)
    {
      hide Recent, Tail, Touch;
      var unique := UniqueModels(models);
      UniqueKeys(models);
      result, missing := map[], [];
      ghost var hits: seq<Key> := [];
      assert used == old(used) + hits;
      for i := 0 to |unique|
        invariant Valid() && used == old(used) + hits
        invariant hits == Select(unique[..i], entries, now, true) && missing == Select(unique[..i], entries, now, false)
        invariant forall k :: k in result <==> k in unique[..i] && Fresh(entries, k, now)
        invariant forall k :: k in result ==>
                    k in entries && result[k] == entries[k].rates && Backed(answers, k, result[k], now)
      {
        assert unique[..i + 1][..i] == unique[..i];
        assert forall k :: k in unique[..i + 1] <==> k in unique[..i] || k == unique[i];
        var pair := unique[i];
        if pair in entries && now - entries[pair].at < CACHE_TTL_SECONDS {
          result := result[pair := entries[pair].rates];
          assert Answer(pair, entries[pair].at, entries[pair].rates) in answers;
          MoveToEnd(pair);
          assert old(used) + hits + [pair] == old(used) + (hits + [pair]);
          hits := hits + [pair];
        } else {
          missing := missing + [pair];
        }
      }
      assert unique[..|unique|] == unique;
    }

    /** Stores and returns the helper's answers, each with the time it is stored at. */
    method StoreAll(served: map<Key, Rates>, missing: seq<Key>, rates: seq<Rates>, reading: nat -> real)
      returns (result: map<Key, Rates>)
      requires Valid() && |missing| == |rates| && Distinct(missing)
      requires forall i: nat, j: nat :: i <= j ==> reading(i) <= reading(j)
      requires clock <= reading(0)
      modifies this
      ensures Valid() && used == old(used) + missing && clock <= reading(|missing|)
      ensures answers == old(answers) + AnswersOf(missing, rates, reading)
      ensures EntriesFrom(entries, old(entries), missing, rates, reading)
      ensures forall k :: k in result <==> k in served || k in missing
      ensures forall i :: 0 <= i < |missing| ==> missing[i] in result && result[missing[i]] == rates[i]
      ensures forall k :: k in served && k !in missing ==> result[k] == served[k]
    {
      hide Valid, EntriesFrom, AnswersOf;
      NothingHeld(entries, reading);
      result := served;
      assert old(used) + missing[..0] == old(used);
      for i := 0 to |missing|
        invariant Valid() && used == old(used) + missing[..i] && clock <= reading(i)
        invariant answers == old(answers) + AnswersOf(missing[..i], rates[..i], reading)
        invariant EntriesFrom(entries, old(entries), missing[..i], rates[..i], reading)
        invariant forall k :: k in result <==> k in served || k in missing[..i]
        invariant forall j :: 0 <= j < i ==> missing[j] in result && result[missing[j]] == rates[j]
        invariant forall k :: k in served && k !in missing ==> result[k] == served[k]
      {
        assert forall k :: k in missing[..i + 1] <==> k in missing[..i] || k == missing[i];
        HeldGrows(missing, rates, reading, i);
        result := result[missing[i] := rates[i]];
        ghost var before := entries;
        Store(missing[i], reading(i + 1), rates[i]);
        EntriesGrow(entries, before, old(entries), missing, rates, reading, i);
        assert old(used) + missing[..i] + [missing[i]] == old(used) + missing[..i + 1];
      }
      assert missing[..|missing|] == missing && rates[..|rates|] == rates;
    }

    /** Prices for the models: from the cache where fresh, else from one call of the helper for all the rest.
        `reading` are the times the clock shows, the first when the call starts, the next as answers are stored. */
    method LookupModelRates(models: seq<Key>, helper: seq<Key> -> Reply, reading: nat -> real)
      returns (result: map<Key, Rates>)
      requires Valid() && clock <= reading(0) && forall i: nat, j: nat :: i <= j ==> reading(i) <= reading(j)
      modifies this
      ensures Valid()
      ensures forall k :: k in result <==> k in models
      ensures forall k :: k in models && k in old(entries) && reading(0) - old(entries)[k].at < 3600.0 ==>
                result[k] == old(entries)[k].rates && Backed(answers, k, result[k], reading(0))
      ensures var missing := old(Misses(models, entries, reading(0)));
              if missing != [] && ValidReply(helper(missing), |missing|) then
                && (forall i :: 0 <= i < |missing| ==>
                      missing[i] in result && result[missing[i]] == RatesAt(helper(missing), i)
                      && Reads(result[missing[i]], helper(missing).payload.items[i]))
                && (forall k :: k in missing ==> k in result && Backed(answers, k, result[k], reading(0)))
                && used == old(used + Hits(models, entries, reading(0))) + missing
                && answers == old(answers) + AnswersOf(missing, AllRates(helper(missing), |missing|), reading)
                && EntriesFrom(entries, old(entries), missing, AllRates(helper(missing), |missing|), reading)
                && clock <= reading(|missing|)
              else
                && (forall k :: k in missing ==> k in result && result[k] == Rates(0.0, 0.0, 0.0))
                && used == old(used + Hits(models, entries, reading(0)))
                && answers == old(answers) && entries == old(entries) && clock == old(clock)
    {
      hide Valid, Misses, Hits;
      var now := reading(0);
      var missing;
      MissesAre(models, entries, now);
      result, missing := ServeFresh(models, now);
      if |missing| == 0 {
        return;
      }
      var reply := helper(missing);
      var resolved := ResolveReply(reply, |missing|);
      if resolved.None? {
        for i := 0 to |missing|
          invariant forall k :: k in result <==> (k in models && Fresh(entries, k, now)) || k in missing[..i]
          invariant forall k :: k in missing[..i] ==> result[k] == ZERO_RATES
          invariant forall k :: k in models && Fresh(entries, k, now) ==> result[k] == entries[k].rates
        {
          assert forall k :: k in missing[..i + 1] <==> k in missing[..i] || k == missing[i];
          assert missing[i] in missing;
          result := result[missing[i] := ZERO_RATES];
        }
        assert missing[..|missing|] == missing;
        return;
      }
      assert resolved.value == AllRates(reply, |missing|);
      result := StoreAll(result, missing, resolved.value, reading);
      JustBacked(answers, missing, resolved.value, reading);
    }
  }

  function RatesAt(reply: Reply, i: nat): Rates
    requires reply.Printed? && reply.payload.List? && i < |reply.payload.items| && ValidEntry(reply.payload.items[i])
  {
    RatesOf(reply.payload.items[i])
  }

  /** The rates of a reply in order. */
  function AllRates(reply: Reply, count: nat): (rates: seq<Rates>)
    requires ValidReply(reply, count)
    ensures |rates| == count && forall i :: 0 <= i < count ==> rates[i] == RatesAt(reply, i)
  {
    seq(count, i requires 0 <= i < count => RatesAt(reply, i))
  }

  /** The helper gave these rates for the key, and they were stored less than the time to live before. */
  ghost predicate Backed(answers: set<Answer>, k: Key, rates: Rates, now: real) {
    exists at :: Answer(k, at, rates) in answers && now - at < 3600.0
  }

  lemma {:induction false} JustBacked(answers: set<Answer>, missing: seq<Key>, rates: seq<Rates>, reading: nat -> real)
    requires |missing| == |rates| && AnswersOf(missing, rates, reading) <= answers
    requires forall i: nat, j: nat :: i <= j ==> reading(i) <= reading(j)
    ensures forall i :: 0 <= i < |missing| ==> Backed(answers, missing[i], rates[i], reading(0))
  {
    forall i | 0 <= i < |missing|
      ensures Backed(answers, missing[i], rates[i], reading(0))
    {
      assert Answer(missing[i], reading(i + 1), rates[i]) in answers;
    }
  }

  /** The answers of one reply. */
  ghost function AnswersOf(missing: seq<Key>, rates: seq<Rates>, reading: nat -> real): set<Answer>
    requires |missing| == |rates|
  {
    set i | 0 <= i < |missing| :: Answer(missing[i], reading(i + 1), rates[i])
  }

  /** Every entry holds an answer of the reply or what it held before. */
  ghost predicate EntriesFrom(entries: map<Key, Entry>, before: map<Key, Entry>, missing: seq<Key>, rates: seq<Rates>,
                              reading: nat -> real)
    requires |missing| == |rates|
  {
    forall x :: x in entries ==>
      || Answer(x, entries[x].at, entries[x].rates) in AnswersOf(missing, rates, reading)
      || (x in before && entries[x] == before[x])
  }

  lemma {:induction false} NothingHeld(entries: map<Key, Entry>, reading: nat -> real)
    ensures EntriesFrom(entries, entries, [], [], reading) && AnswersOf([], [], reading) == {}
  {
  }

  lemma {:induction false} EntriesGrow(entries: map<Key, Entry>, middle: map<Key, Entry>, before: map<Key, Entry>,
                                       missing: seq<Key>, rates: seq<Rates>, reading: nat -> real, i: nat)
    requires i < |missing| == |rates| && EntriesFrom(middle, before, missing[..i], rates[..i], reading)
    requires forall x :: x in entries ==>
               if x == missing[i] then entries[x] == Entry(reading(i + 1), rates[i])
               else x in middle && entries[x] == middle[x]
    ensures EntriesFrom(entries, before, missing[..i + 1], rates[..i + 1], reading)
  {
    HeldGrows(missing, rates, reading, i);
  }

  lemma {:induction false} HeldGrows(missing: seq<Key>, rates: seq<Rates>, reading: nat -> real, i: nat)
    requires i < |missing| == |rates|
    ensures AnswersOf(missing[..i + 1], rates[..i + 1], reading)
         == AnswersOf(missing[..i], rates[..i], reading) + {Answer(missing[i], reading(i + 1), rates[i])}
  {
    var all := AnswersOf(missing[..i + 1], rates[..i + 1], reading);
    var before := AnswersOf(missing[..i], rates[..i], reading);
    forall a
      ensures a in all <==> a in before || a == Answer(missing[i], reading(i + 1), rates[i])
    {
      if a in before {
        var j :| 0 <= j < i && a == Answer(missing[..i][j], reading(j + 1), rates[..i][j]);
        assert missing[..i + 1][j] == missing[j] && rates[..i + 1][j] == rates[j];
      }
      assert missing[..i + 1][i] == missing[i] && rates[..i + 1][i] == rates[i];
    }
  }

  lemma {:induction false} TailDrop(keys: seq<Key>, n: nat)
    requires |keys| > n
    ensures Tail(keys[1..], n) == Tail(keys, n) && forall x :: x in keys <==> x in keys[1..] || x == keys[0]
  {
    forall x | x in keys
      ensures x in keys[1..] || x == keys[0]
    {
      var i :| 0 <= i < |keys| && keys[i] == x;
      assert i > 0 ==> keys[1..][i - 1] == x;
    }
  }

  /** Using a key once more. */
  lemma {:induction false} UsedAgain(used: seq<Key>, k: Key)
    ensures Tail(Recent(used + [k]), 256) == Tail(Touch(Tail(Recent(used), 256), k), 256)
  {
    assert (used + [k])[..|used|] == used;
    RecentMembers(used);
    TailTouch(Recent(used), k, MAX_CACHED_MODELS);
  }

  lemma {:induction false} KeysInOrder(used: seq<Key>, k: Key)
    ensures var order := Tail(Recent(used), 256);
            && Distinct(order) && |order| <= 256
            && Distinct(Touch(order, k)) && (forall x :: x in Touch(order, k) <==> x in order || x == k)
            && |Touch(order, k)| == if k in order then |order| else |order| + 1
  {
    RecentMembers(used);
    TailOfTail(Recent(used), MAX_CACHED_MODELS);
    TouchMembers(Tail(Recent(used), MAX_CACHED_MODELS), k);
  }
}
