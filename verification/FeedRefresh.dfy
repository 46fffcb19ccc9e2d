/** Planning a feed refresh against the stored posts, and applying the plan. */
module FeedRefresh {
  import opened Basics

  /** A stored post of the feed. */
  datatype Post = Post(guid: string, url: string, title: string, description: Option<string>, audioPath: Option<string>,
                       releaseDate: Option<string>, duration: Option<int>, imageUrl: Option<string>, whitelisted: bool)

  /** The posts of one feed by primary key. */
  type Table = map<int, Post>

  /** A row of the query for the posts, which come back in any order. */
  datatype Row = Row(id: int, post: Post)

  /** An item of the fetched feed; once the artwork falls back to the feed's, an entry to plan with. */
  datatype Entry = Entry(guid: string, url: string, title: string, description: string, releaseDate: Option<string>,
                         duration: Option<int>, imageUrl: Option<string>)

  /** The changed fields of a stored post; an artwork change may also be to none. */
  datatype Update = Update(postId: int, guid: Option<string>, title: Option<string>, description: Option<string>,
                           imageUrl: Option<Option<string>>, duration: Option<int>)

  datatype Plan = Plan(feedImage: Option<string>, newPosts: seq<Post>, updates: seq<Update>)

  // ---------- release dates ----------

  /** Strings compare by their first difference. */
  predicate Less(a: string, b: string) {
    if b == "" then false
    else if a == "" then true
    else a[0] < b[0] || (a[0] == b[0] && Less(a[1..], b[1..]))
  }

  /** The part before the first `T`. */
  function DatePrefix(date: string): string {
    if date == "" || date[0] == 'T' then "" else [date[0]] + DatePrefix(date[1..])
  }

  /** The least release date stored, as text. */
  function Oldest(rows: seq<Row>): Option<string> {
    if rows == [] then None
    else
      var before, date := Oldest(rows[..|rows| - 1]), rows[|rows| - 1].post.releaseDate;
      if date.None? || (before.Some? && !Less(date.value, before.value)) then before else date
  }

  predicate IsArchive(oldest: Option<string>, release: Option<string>) {
    oldest.Some? && release.Some? && Less(DatePrefix(release.value), DatePrefix(oldest.value))
  }

  // ---------- matching and updating ----------

  /** Collecting rows into a hash map: a later row replaces an earlier one with the same key. */
  function ByGuid(rows: seq<Row>): map<string, Row> {
    if rows == [] then map[] else ByGuid(rows[..|rows| - 1])[rows[|rows| - 1].post.guid := rows[|rows| - 1]]
  }

  function ByUrl(rows: seq<Row>): map<string, Row> {
    if rows == [] then map[] else ByUrl(rows[..|rows| - 1])[rows[|rows| - 1].post.url := rows[|rows| - 1]]
  }

  /** The stored post an entry stands for: the one with its guid, else the one with its audio URL. */
  function Match(rows: seq<Row>, e: Entry): Option<Row> {
    if e.guid in ByGuid(rows) then Some(ByGuid(rows)[e.guid])
    else if e.url in ByUrl(rows) then Some(ByUrl(rows)[e.url])
    else None
  }

  function Text(o: Option<string>): string { if o.Some? then o.value else "" }

  function RefreshUpdate(row: Row, e: Entry, repaired: Option<string>): Option<Update> {
    var p := row.post;
    var update := Update(
      row.id,
      repaired,
      if e.title != "" && p.title != e.title then Some(e.title) else None,
      if Text(p.description) != e.description then Some(e.description) else None,
      if p.imageUrl != e.imageUrl then Some(e.imageUrl) else None,
      if p.audioPath.None? && e.duration.Some? && p.duration != e.duration then e.duration else None);
    if update == Update(row.id, None, None, None, None, None) then None else Some(update)
  }

  /** The update planned for an entry: the guid is repaired when the post was found by URL. */
  function UpdateFor(rows: seq<Row>, e: Entry): Option<Update> {
    var found := Match(rows, e);
    if found.None? then None
    else RefreshUpdate(found.value, e, if e.guid in ByGuid(rows) then None else Some(e.guid))
  }

  function Updates(rows: seq<Row>, entries: seq<Entry>): seq<Update> {
    if entries == [] then []
    else
      var before, u := Updates(rows, entries[..|entries| - 1]), UpdateFor(rows, entries[|entries| - 1]);
      if u.Some? then before + [u.value] else before
  }

  function NewPost(e: Entry, oldest: Option<string>, autoWhitelist: bool): Post {
    Post(e.guid, e.url, e.title, Some(e.description), None, e.releaseDate, e.duration, e.imageUrl,
         autoWhitelist && !IsArchive(oldest, e.releaseDate))
  }

  function NewPosts(rows: seq<Row>, entries: seq<Entry>, autoWhitelist: bool): seq<Post> {
    if entries == [] then []
    else
      var before, e := NewPosts(rows, entries[..|entries| - 1], autoWhitelist), entries[|entries| - 1];
      if Match(rows, e).None? then before + [NewPost(e, Oldest(rows), autoWhitelist)] else before
  }

  /** Artwork an item does not carry is the feed's. */
  function WithFallback(item: Entry, feedImage: Option<string>): Entry {
    if item.imageUrl.Some? then item else item.(imageUrl := feedImage)
  }

  function Entries(items: seq<Entry>, feedImage: Option<string>): (entries: seq<Entry>)
    ensures |entries| == |items|
    ensures forall i :: 0 <= i < |items| ==> entries[i] == WithFallback(items[i], feedImage)
  {
    if items == [] then [] else Entries(items[..|items| - 1], feedImage) + [WithFallback(items[|items| - 1], feedImage)]
  }

  function FeedImageChange(feedImage: Option<string>, channelImage: Option<string>): Option<string> {
    if channelImage.Some? && feedImage != channelImage then channelImage else None
  }

  function PlanOf(feedImage: Option<string>, rows: seq<Row>, channelImage: Option<string>, items: seq<Entry>,
                  autoWhitelist: bool): Plan {
    var entries := Entries(items, feedImage);
    Plan(FeedImageChange(feedImage, channelImage), NewPosts(rows, entries, autoWhitelist), Updates(rows, entries))
  }

  method IndexPosts(rows: seq<Row>) returns (byGuid: map<string, Row>, byUrl: map<string, Row>, oldest: Option<string>)
    ensures byGuid == ByGuid(rows) && byUrl == ByUrl(rows) && oldest == Oldest(rows)
  {
    byGuid, byUrl, oldest := map[], map[], None;
    for i := 0 to |rows|
      invariant byGuid == ByGuid(rows[..i]) && byUrl == ByUrl(rows[..i]) && oldest == Oldest(rows[..i])
    {
      assert rows[..i + 1][..i] == rows[..i];
      byGuid := byGuid[rows[i].post.guid := rows[i]];
      byUrl := byUrl[rows[i].post.url := rows[i]];
      var date := rows[i].post.releaseDate;
      if date.Some? && (oldest.None? || Less(date.value, oldest.value)) {
        oldest := date;
      }
    }
    assert rows[..|rows|] == rows;
  }

  /** The update of one stored post, field by field. */
  method ExistingPostRefreshUpdate(row: Row, e: Entry, repaired: Option<string>) returns (result: Option<Update>)
    ensures result == RefreshUpdate(row, e, repaired)
  {
    var update := Update(row.id, None, None, None, None, None);
    if repaired.Some? {
      update := update.(guid := repaired);
    }
    if e.title != "" && row.post.title != e.title {
      update := update.(title := Some(e.title));
    }
    if Text(row.post.description) != e.description {
      update := update.(description := Some(e.description));
    }
    if row.post.imageUrl != e.imageUrl {
      update := update.(imageUrl := Some(e.imageUrl));
    }
    if row.post.audioPath.None? && e.duration.Some? && row.post.duration != e.duration {
      update := update.(duration := e.duration);
    }
    if update != Update(row.id, None, None, None, None, None) {
      return Some(update);
    }
    return None;
  }

  /** One more entry adds its update, or its new post. */
  lemma {:induction false} PlanGrows(rows: seq<Row>, entries: seq<Entry>, n: nat, autoWhitelist: bool)
    requires n < |entries|
    ensures var u := UpdateFor(rows, entries[n]);
            Updates(rows, entries[..n + 1])
            == if u.Some? then Updates(rows, entries[..n]) + [u.value] else Updates(rows, entries[..n])
    ensures NewPosts(rows, entries[..n + 1], autoWhitelist)
         == if Match(rows, entries[n]).Some? then NewPosts(rows, entries[..n], autoWhitelist)
            else NewPosts(rows, entries[..n], autoWhitelist) + [NewPost(entries[n], Oldest(rows), autoWhitelist)]
  {
    assert entries[..n + 1][..n] == entries[..n];
  }

  lemma {:induction false} NothingToPlan(rows: seq<Row>, autoWhitelist: bool)
    ensures Updates(rows, []) == [] && NewPosts(rows, [], autoWhitelist) == []
  {
  }

  method PlanFeedRefresh(feedImage: Option<string>, rows: seq<Row>, channelImage: Option<string>, items: seq<Entry>,
                         autoWhitelist: bool) returns (plan: Plan)
    ensures plan == PlanOf(feedImage, rows, channelImage, items, autoWhitelist)
  {
    hide Updates, NewPosts, RefreshUpdate, ByGuid, ByUrl, Oldest, Less, DatePrefix;
    NothingToPlan(rows, autoWhitelist);
    var entries := Entries(items, feedImage);
    var feedChange := None;
    if channelImage.Some? {
      if feedImage != channelImage {
        feedChange := channelImage;
      }
    }
    var byGuid, byUrl, oldest := IndexPosts(rows);
    var newPosts, updates := [], [];
    for i := 0 to |entries|
      invariant newPosts == NewPosts(rows, entries[..i], autoWhitelist)
      invariant updates == Updates(rows, entries[..i])
    {
      PlanGrows(rows, entries, i, autoWhitelist);
      var entry := entries[i];
      var existing := if entry.guid in byGuid then Some(byGuid[entry.guid]) else None;
      var repaired: Option<string> := None;
      if existing.None? {
        existing := if entry.url in byUrl then Some(byUrl[entry.url]) else None;
        if existing.Some? && existing.value.post.guid != entry.guid {
          repaired := Some(entry.guid);
        }
      }
      if existing.Some? {
        RepairsExactlyByUrl(rows, entry);
        var update := ExistingPostRefreshUpdate(existing.value, entry, repaired);
        if update.Some? {
          updates := updates + [update.value];
        }
      } else {
        var archive := match (oldest, entry.releaseDate)
          case (Some(o), Some(release)) => Less(DatePrefix(release), DatePrefix(o))
          case _ => false;
        newPosts := newPosts + [Post(entry.guid, entry.url, entry.title, Some(entry.description), None,
                                     entry.releaseDate, entry.duration, entry.imageUrl, autoWhitelist && !archive)];
      }
    }
    assert entries[..|entries|] == entries;
    plan := Plan(feedChange, newPosts, updates);
  }

  /** A post found by URL alone has another guid. */
  lemma {:induction false} RepairsExactlyByUrl(rows: seq<Row>, e: Entry)
    ensures e.guid !in ByGuid(rows) && e.url in ByUrl(rows) ==> ByUrl(rows)[e.url].post.guid != e.guid
  {
    if rows != [] {
      RepairsExactlyByUrl(rows[..|rows| - 1], e);
    }
  }

  // ---------- applying a plan ----------

  /** Assigns the fields an update carries. */
  function Assign(p: Post, u: Update): Post {
    p.(guid := if u.guid.Some? then u.guid.value else p.guid,
       title := if u.title.Some? then u.title.value else p.title,
       description := if u.description.Some? then u.description else p.description,
       imageUrl := if u.imageUrl.Some? then u.imageUrl.value else p.imageUrl,
       duration := if u.duration.Some? then u.duration else p.duration)
  }

  /** An update without an id, or for a post that is not there, is skipped. */
  function ApplyOne(table: Table, u: Update): Table {
    if u.postId == 0 || u.postId !in table then table else table[u.postId := Assign(table[u.postId], u)]
  }

  function ApplyUpdates(table: Table, updates: seq<Update>): Table {
    if updates == [] then table else ApplyOne(ApplyUpdates(table, updates[..|updates| - 1]), updates[|updates| - 1])
  }

  /** Inserts posts under the ids the database hands out. */
  function Insert(table: Table, posts: seq<Post>, ids: seq<int>): Table
    requires |posts| == |ids|
  {
    if posts == [] then table
    else Insert(table, posts[..|posts| - 1], ids[..|ids| - 1])[ids[|ids| - 1] := posts[|posts| - 1]]
  }

  /** The feed's artwork and its posts. */
  datatype State = State(image: Option<string>, table: Table)

  function Apply(state: State, plan: Plan, ids: seq<int>): State
    requires |plan.newPosts| == |ids|
  {
    State(if plan.feedImage.Some? then plan.feedImage else state.image,
          ApplyUpdates(Insert(state.table, plan.newPosts, ids), plan.updates))
  }

  /** The stored feed, as the writer changes it. */
  class FeedStore {
    var image: Option<string>
    var table: Table

    ghost function Value(): State
      reads this
    {
      State(image, table)
    }

    constructor (image: Option<string>, table: Table)
      ensures Value() == State(image, table)
    {
      this.image, this.table := image, table;
    }

    method ApplyExistingPostUpdates(updates: seq<Update>)
      modifies this`table
      ensures table == ApplyUpdates(old(table), updates)
    {
      for i := 0 to |updates|
        invariant table == ApplyUpdates(old(table), updates[..i])
      {
        assert updates[..i + 1][..i] == updates[..i];
        var u := updates[i];
        if u.postId == 0 {
          continue;
        }
        if u.postId !in table {
          continue;
        }
        table := table[u.postId := Assign(table[u.postId], u)];
      }
      assert updates[..|updates|] == updates;
    }

    /** The writer's action: feed fields, then the new posts, then the existing ones. */
    method RefreshFeed(plan: Plan, ids: seq<int>)
      requires |plan.newPosts| == |ids|
      modifies this
      ensures Value() == Apply(old(Value()), plan, ids)
    {
      if plan.feedImage.Some? {
        image := plan.feedImage;
      }
      for i := 0 to |ids|
        invariant image == Apply(old(Value()), plan, ids).image
        invariant table == Insert(old(table), plan.newPosts[..i], ids[..i])
      {
        assert plan.newPosts[..i + 1][..i] == plan.newPosts[..i] && ids[..i + 1][..i] == ids[..i];
        table := table[ids[i] := plan.newPosts[i]];
      }
      assert plan.newPosts[..|ids|] == plan.newPosts && ids[..|ids|] == ids;
      ApplyExistingPostUpdates(plan.updates);
    }
  }

  // ---------- what matching finds ----------

  /** The rows are those of the table, in some order. */
  ghost predicate Lists(rows: seq<Row>, table: Table) {
    && (forall i :: 0 <= i < |rows| ==> rows[i].id in table && table[rows[i].id] == rows[i].post)
    && (forall id :: id in table ==> Row(id, table[id]) in rows)
  }

  /** The database's constraints: ids start at one, guids and URLs are unique. */
  ghost predicate Keyed(table: Table) {
    0 !in table && forall a, b :: a in table && b in table && a != b ==>
        table[a].guid != table[b].guid && table[a].url != table[b].url
  }

  ghost predicate GuidStored(table: Table, guid: string) {
    exists id :: id in table && table[id].guid == guid
  }

  /** The entry stands for the stored post. */
  ghost predicate Matches(table: Table, e: Entry, id: int) {
    id in table && (table[id].guid == e.guid || (!GuidStored(table, e.guid) && table[id].url == e.url))
  }

  ghost predicate Unmatched(table: Table, e: Entry) {
    forall id :: id in table ==> table[id].guid != e.guid && table[id].url != e.url
  }

  lemma {:induction false} ByGuidFinds(rows: seq<Row>, guid: string)
    ensures guid in ByGuid(rows) ==> ByGuid(rows)[guid] in rows && ByGuid(rows)[guid].post.guid == guid
    ensures guid !in ByGuid(rows) ==> forall i :: 0 <= i < |rows| ==> rows[i].post.guid != guid
  {
    if rows != [] {
      ByGuidFinds(rows[..|rows| - 1], guid);
    }
  }

  lemma {:induction false} ByUrlFinds(rows: seq<Row>, url: string)
    ensures url in ByUrl(rows) ==> ByUrl(rows)[url] in rows && ByUrl(rows)[url].post.url == url
    ensures url !in ByUrl(rows) ==> forall i :: 0 <= i < |rows| ==> rows[i].post.url != url
  {
    if rows != [] {
      ByUrlFinds(rows[..|rows| - 1], url);
    }
  }

  /** Whatever the order of the rows, an entry is matched with the post it stands for. */
  lemma {:induction false} MatchFinds(rows: seq<Row>, table: Table, e: Entry)
    requires Lists(rows, table)
    ensures e.guid in ByGuid(rows) <==> GuidStored(table, e.guid)
    ensures Match(rows, e).None? ==> Unmatched(table, e)
    ensures Match(rows, e).Some? ==> var row := Match(rows, e).value;
              Matches(table, e, row.id) && table[row.id] == row.post
  {
    ByGuidFinds(rows, e.guid);
    ByUrlFinds(rows, e.url);
    if e.guid !in ByGuid(rows) {
      forall id | id in table
        ensures table[id].guid != e.guid
      {
        assert Row(id, table[id]) in rows;
      }
      if e.url !in ByUrl(rows) {
        forall id | id in table
          ensures table[id].url != e.url
        {
          assert Row(id, table[id]) in rows;
        }
      }
    }
  }

  // ---------- what an update does ----------

  /** The post as the entry wants it: an empty title and a missing duration change nothing, nor does a
      duration once the audio is processed. */
  function Refreshed(p: Post, e: Entry): Post {
    p.(guid := e.guid,
       title := if e.title == "" then p.title else e.title,
       description := if p.description.None? && e.description == "" then None else Some(e.description),
       imageUrl := e.imageUrl,
       duration := if p.audioPath.Some? || e.duration.None? then p.duration else e.duration)
  }

  /** Applying the update planned for a post refreshes it; none is planned exactly when it is fresh. */
  lemma {:induction false} UpdateRefreshes(rows: seq<Row>, table: Table, e: Entry)
    requires Lists(rows, table) && Match(rows, e).Some?
    ensures var row, u := Match(rows, e).value, UpdateFor(rows, e);
            && (u.None? <==> Refreshed(row.post, e) == row.post)
            && (u.Some? ==> u.value.postId == row.id && Assign(row.post, u.value) == Refreshed(row.post, e))
  {
    var row := Match(rows, e).value;
    MatchFinds(rows, table, e);
    ByGuidFinds(rows, e.guid);
    RepairsExactlyByUrl(rows, e);
    assert Text(row.post.description) == e.description <==> Refreshed(row.post, e).description == row.post.description;
  }

  // ---------- when a plan is empty ----------

  /** Some post has the entry's guid and is as the entry wants it. */
  ghost predicate Settled(table: Table, e: Entry) {
    exists id :: id in table && table[id].guid == e.guid && Refreshed(table[id], e) == table[id]
  }

  ghost predicate AllSettled(table: Table, entries: seq<Entry>) {
    forall k :: 0 <= k < |entries| ==> Settled(table, entries[k])
  }

  predicate Quiet(rows: seq<Row>, e: Entry) {
    Match(rows, e).Some? && UpdateFor(rows, e).None?
  }

  lemma {:induction false} QuietWhenSettled(rows: seq<Row>, table: Table, e: Entry)
    requires Lists(rows, table) && Keyed(table)
    ensures Quiet(rows, e) <==> Settled(table, e)
  {
    MatchFinds(rows, table, e);
    if Match(rows, e).Some? {
      UpdateRefreshes(rows, table, e);
    }
  }

  lemma {:induction false} PlansNothing(rows: seq<Row>, entries: seq<Entry>, autoWhitelist: bool)
    ensures NewPosts(rows, entries, autoWhitelist) == [] && Updates(rows, entries) == []
            <==> forall k :: 0 <= k < |entries| ==> Quiet(rows, entries[k])
  {
    if entries != [] {
      PlansNothing(rows, entries[..|entries| - 1], autoWhitelist);
      assert Quiet(rows, entries[|entries| - 1]) ==> entries == entries[..|entries| - 1] + [entries[|entries| - 1]];
    }
  }

  /** No post is planned to change exactly when every entry is settled. */
  lemma {:induction false} EmptyWhenSettled(rows: seq<Row>, table: Table, entries: seq<Entry>, autoWhitelist: bool)
    requires Lists(rows, table) && Keyed(table)
    ensures NewPosts(rows, entries, autoWhitelist) == [] && Updates(rows, entries) == [] <==> AllSettled(table, entries)
  {
    PlansNothing(rows, entries, autoWhitelist);
    forall k | 0 <= k < |entries|
      ensures Quiet(rows, entries[k]) <==> Settled(table, entries[k])
    {
      QuietWhenSettled(rows, table, entries[k]);
    }
  }

  // ---------- the table after a round ----------

  /** No two entries share a guid or an audio URL. */
  ghost predicate Distinct(entries: seq<Entry>) {
    forall i, j :: 0 <= i < j < |entries| ==> entries[i].guid != entries[j].guid && entries[i].url != entries[j].url
  }

  /** No stored post is matched by two entries. */
  ghost predicate NotShared(table: Table, entries: seq<Entry>) {
    forall i, j, id :: 0 <= i < j < |entries| ==> !(Matches(table, entries[i], id) && Matches(table, entries[j], id))
  }

  ghost predicate FreshIds(ids: seq<int>, table: Table) {
    && (forall j :: 0 <= j < |ids| ==> ids[j] !in table && ids[j] != 0)
    && (forall i, j :: 0 <= i < j < |ids| ==> ids[i] != ids[j])
  }

  lemma {:induction false} InsertKeeps(table: Table, posts: seq<Post>, ids: seq<int>, id: int)
    requires |posts| == |ids|
    ensures id in Insert(table, posts, ids) <==> id in table || id in ids
    ensures id in table && id !in ids ==> Insert(table, posts, ids)[id] == table[id]
  {
    if posts != [] {
      var n := |ids| - 1;
      InsertKeeps(table, posts[..n], ids[..n], id);
      assert id in ids <==> id in ids[..n] || id == ids[n];
    }
  }

  lemma {:induction false} InsertPuts(table: Table, posts: seq<Post>, ids: seq<int>, j: nat)
    requires j < |posts| == |ids| && FreshIds(ids, table)
    ensures ids[j] in Insert(table, posts, ids) && Insert(table, posts, ids)[ids[j]] == posts[j]
  {
    if j < |ids| - 1 {
      InsertPuts(table, posts[..|ids| - 1], ids[..|ids| - 1], j);
    }
  }

  lemma {:induction false} UpdatesKeepKeys(table: Table, updates: seq<Update>)
    ensures ApplyUpdates(table, updates).Keys == table.Keys
  {
    if updates != [] {
      UpdatesKeepKeys(table, updates[..|updates| - 1]);
    }
  }

  lemma {:induction false} ApplyLast(table: Table, rows: seq<Row>, entries: seq<Entry>)
    requires entries != []
    ensures var before := ApplyUpdates(table, Updates(rows, entries[..|entries| - 1]));
            var u := UpdateFor(rows, entries[|entries| - 1]);
            ApplyUpdates(table, Updates(rows, entries)) == if u.Some? then ApplyOne(before, u.value) else before
  {
    var before, u := Updates(rows, entries[..|entries| - 1]), UpdateFor(rows, entries[|entries| - 1]);
    if u.Some? {
      assert (before + [u.value])[..|before|] == before;
    }
  }

  /** A post no entry matches is left alone. */
  lemma {:induction false} UntouchedRow(rows: seq<Row>, table: Table, full: Table, entries: seq<Entry>, id: int)
    requires Lists(rows, table) && id in full
    requires forall k :: 0 <= k < |entries| ==> !Matches(table, entries[k], id)
    ensures var after := ApplyUpdates(full, Updates(rows, entries)); id in after && after[id] == full[id]
  {
    if entries != [] {
      var e := entries[|entries| - 1];
      UntouchedRow(rows, table, full, entries[..|entries| - 1], id);
      ApplyLast(full, rows, entries);
      if UpdateFor(rows, e).Some? {
        MatchFinds(rows, table, e);
      }
    }
  }

  /** A post one entry matches is refreshed by that entry. */
  lemma {:induction false} RefreshedRow(rows: seq<Row>, table: Table, full: Table, entries: seq<Entry>, id: int, k: nat)
    requires Lists(rows, table) && Keyed(table) && id in full && id in table && full[id] == table[id]
    requires k < |entries| && Matches(table, entries[k], id)
    requires forall j :: 0 <= j < |entries| && j != k ==> !Matches(table, entries[j], id)
    ensures var after := ApplyUpdates(full, Updates(rows, entries));
            id in after && after[id] == Refreshed(table[id], entries[k])
  {
    hide RefreshUpdate, Assign, ByGuid, ByUrl, Updates, ApplyUpdates;
    var init, e := entries[..|entries| - 1], entries[|entries| - 1];
    MatchFinds(rows, table, e);
    ApplyLast(full, rows, entries);
    if Match(rows, e).Some? {
      UpdateRefreshes(rows, table, e);
    }
    if k == |entries| - 1 {
      UntouchedRow(rows, table, full, init, id);
    } else {
      RefreshedRow(rows, table, full, init, id, k);
    }
  }

  ghost predicate MadeFrom(rows: seq<Row>, e: Entry, autoWhitelist: bool, p: Post) {
    Match(rows, e).None? && p == NewPost(e, Oldest(rows), autoWhitelist)
  }

  ghost predicate MadeFor(rows: seq<Row>, entries: seq<Entry>, autoWhitelist: bool, p: Post) {
    exists k :: 0 <= k < |entries| && MadeFrom(rows, entries[k], autoWhitelist, p)
  }

  /** Every new post is made for an entry without a match. */
  lemma {:induction false} NewPostMade(rows: seq<Row>, entries: seq<Entry>, autoWhitelist: bool, j: nat)
    requires j < |NewPosts(rows, entries, autoWhitelist)|
    ensures MadeFor(rows, entries, autoWhitelist, NewPosts(rows, entries, autoWhitelist)[j])
  {
    var init, e := entries[..|entries| - 1], entries[|entries| - 1];
    var before, p := NewPosts(rows, init, autoWhitelist), NewPosts(rows, entries, autoWhitelist)[j];
    if j < |before| {
      NewPostMade(rows, init, autoWhitelist, j);
      var k :| 0 <= k < |init| && MadeFrom(rows, init[k], autoWhitelist, p);
      assert entries[k] == init[k];
    } else {
      assert MadeFrom(rows, e, autoWhitelist, p);
    }
  }

  /** The new posts differ in guid and URL. */
  lemma {:induction false} NewPostsDiffer(rows: seq<Row>, entries: seq<Entry>, autoWhitelist: bool, i: nat, j: nat)
    requires Distinct(entries) && i < j < |NewPosts(rows, entries, autoWhitelist)|
    ensures var posts := NewPosts(rows, entries, autoWhitelist);
            posts[i].guid != posts[j].guid && posts[i].url != posts[j].url
  {
    var init := entries[..|entries| - 1];
    var before := NewPosts(rows, init, autoWhitelist);
    if j < |before| {
      NewPostsDiffer(rows, init, autoWhitelist, i, j);
    } else {
      NewPostMade(rows, init, autoWhitelist, i);
      var k :| 0 <= k < |init| && MadeFrom(rows, init[k], autoWhitelist, before[i]);
      assert entries[k] == init[k];
    }
  }

  lemma {:induction false} MakesPost(rows: seq<Row>, entries: seq<Entry>, autoWhitelist: bool, k: nat)
    requires k < |entries| && Match(rows, entries[k]).None?
    ensures NewPost(entries[k], Oldest(rows), autoWhitelist) in NewPosts(rows, entries, autoWhitelist)
  {
    var init := entries[..|entries| - 1];
    if k < |init| {
      MakesPost(rows, init, autoWhitelist, k);
      assert init[k] == entries[k];
    }
  }

  /** The table after a round. */
  function Refresh(rows: seq<Row>, table: Table, entries: seq<Entry>, autoWhitelist: bool, ids: seq<int>): Table
    requires |ids| == |NewPosts(rows, entries, autoWhitelist)|
  {
    ApplyUpdates(Insert(table, NewPosts(rows, entries, autoWhitelist), ids), Updates(rows, entries))
  }

  /** What a refresh is given. */
  ghost predicate Refreshable(rows: seq<Row>, table: Table, entries: seq<Entry>, autoWhitelist: bool, ids: seq<int>) {
    && Lists(rows, table) && Keyed(table) && Distinct(entries)
    && |ids| == |NewPosts(rows, entries, autoWhitelist)| && FreshIds(ids, table)
  }

  // ---------- what a round does to guids and URLs ----------

  /** The entry stands for the stored post by its URL alone, so its guid replaces the post's. */
  ghost predicate ByUrlOnly(table: Table, e: Entry, id: int) {
    id in table && !GuidStored(table, e.guid) && table[id].url == e.url
  }

  lemma {:induction false} UpdateKeys(rows: seq<Row>, table: Table, e: Entry)
    requires Lists(rows, table) && Keyed(table)
    ensures var u := UpdateFor(rows, e);
            && (forall id :: ByUrlOnly(table, e, id) ==>
                  u.Some? && u.value.postId == id && u.value.guid == Some(e.guid))
            && (u.Some? ==> u.value.postId in table && u.value.postId != 0)
            && (u.Some? && u.value.guid.Some? ==> u.value.guid.value == e.guid && ByUrlOnly(table, e, u.value.postId))
  {
    MatchFinds(rows, table, e);
    var u := UpdateFor(rows, e);
    forall id | ByUrlOnly(table, e, id)
      ensures u.Some? && u.value.postId == id && u.value.guid == Some(e.guid)
    {
      assert !Unmatched(table, e);
    }
  }

  /** A stored post keeps its URL, and its guid unless an entry stands for it by its URL alone. */
  lemma {:induction false} KeysAfter(rows: seq<Row>, table: Table, full: Table, entries: seq<Entry>, id: int)
    requires Lists(rows, table) && Keyed(table) && Distinct(entries)
    requires id in table && id in full && full[id] == table[id]
    ensures var after := ApplyUpdates(full, Updates(rows, entries));
            && id in after && after[id].url == table[id].url
            && (forall k :: 0 <= k < |entries| && ByUrlOnly(table, entries[k], id) ==>
                  after[id].guid == entries[k].guid)
            && ((forall k :: 0 <= k < |entries| ==> !ByUrlOnly(table, entries[k], id)) ==>
                  after[id].guid == table[id].guid)
  {
    hide RefreshUpdate, UpdateFor, Updates, ApplyUpdates, Lists, Keyed, ByUrlOnly;
    if entries == [] {
      NoUpdates(rows, full);
    } else {
      var init, e := entries[..|entries| - 1], entries[|entries| - 1];
      KeysAfter(rows, table, full, init, id);
      ApplyLast(full, rows, entries);
      UpdateKeys(rows, table, e);
      OneTaker(table, entries, id);
      assert forall k :: 0 <= k < |init| ==> init[k] == entries[k];
    }
  }

  lemma {:induction false} NoUpdates(rows: seq<Row>, full: Table)
    ensures ApplyUpdates(full, Updates(rows, [])) == full
  {
  }

  /** At most one entry stands for a post by its URL. */
  lemma {:induction false} OneTaker(table: Table, entries: seq<Entry>, id: int)
    requires Distinct(entries)
    ensures forall i, j :: 0 <= i < j < |entries| ==>
              !(ByUrlOnly(table, entries[i], id) && ByUrlOnly(table, entries[j], id))
  {
  }

  /** A new post is stored under the id it got. */
  lemma {:induction false} InsertedRow(rows: seq<Row>, table: Table, entries: seq<Entry>, autoWhitelist: bool,
                                       ids: seq<int>, j: nat)
    requires Refreshable(rows, table, entries, autoWhitelist, ids) && j < |ids|
    ensures var after := Refresh(rows, table, entries, autoWhitelist, ids);
            ids[j] in after && after[ids[j]] == NewPosts(rows, entries, autoWhitelist)[j]
  {
    var posts := NewPosts(rows, entries, autoWhitelist);
    InsertPuts(table, posts, ids, j);
    UntouchedRow(rows, table, Insert(table, posts, ids), entries, ids[j]);
  }

  /** What a round does to guids and URLs: entries known by their URL alone take their post over, other stored
      posts keep both, and the entries that match nothing add posts of their own. */
  ghost predicate KeyRound(table: Table, items: seq<Entry>, after: Table) {
    && (forall id :: id in table ==> id in after && after[id].url == table[id].url)
    && (forall id, k :: 0 <= k < |items| && ByUrlOnly(table, items[k], id) ==> after[id].guid == items[k].guid)
    && (forall id :: id in table && (forall k :: 0 <= k < |items| ==> !ByUrlOnly(table, items[k], id)) ==>
          after[id].guid == table[id].guid)
    && (forall id :: id in after && id !in table ==> AddedFor(table, items, after[id]))
    && (forall k :: 0 <= k < |items| && Unmatched(table, items[k]) ==> GuidStored(after, items[k].guid))
    && Keyed(after)
  }

  /** The post has the keys of an entry that matches nothing. */
  ghost predicate AddedFor(table: Table, items: seq<Entry>, p: Post) {
    exists k :: 0 <= k < |items| && Unmatched(table, items[k]) && p.guid == items[k].guid && p.url == items[k].url
  }

  lemma {:induction false} StoredKeys(rows: seq<Row>, table: Table, entries: seq<Entry>, autoWhitelist: bool,
                                      ids: seq<int>, id: int)
    requires Refreshable(rows, table, entries, autoWhitelist, ids) && id in table
    ensures var after := Refresh(rows, table, entries, autoWhitelist, ids);
            && id in after && after[id].url == table[id].url
            && (forall k :: 0 <= k < |entries| && ByUrlOnly(table, entries[k], id) ==>
                  after[id].guid == entries[k].guid)
            && ((forall k :: 0 <= k < |entries| ==> !ByUrlOnly(table, entries[k], id)) ==>
                  after[id].guid == table[id].guid)
  {
    var posts := NewPosts(rows, entries, autoWhitelist);
    InsertKeeps(table, posts, ids, id);
    KeysAfter(rows, table, Insert(table, posts, ids), entries, id);
  }

  lemma {:induction false} AddedKeys(rows: seq<Row>, table: Table, entries: seq<Entry>, autoWhitelist: bool,
                                     ids: seq<int>, j: nat)
    requires Refreshable(rows, table, entries, autoWhitelist, ids) && j < |ids|
    ensures var after := Refresh(rows, table, entries, autoWhitelist, ids);
            ids[j] in after && AddedFor(table, entries, after[ids[j]])
  {
    InsertedRow(rows, table, entries, autoWhitelist, ids, j);
    NewPostMade(rows, entries, autoWhitelist, j);
    var k :| 0 <= k < |entries| && MadeFrom(rows, entries[k], autoWhitelist, NewPosts(rows, entries, autoWhitelist)[j]);
    MatchFinds(rows, table, entries[k]);
  }

  lemma {:induction false} UnmatchedStored(rows: seq<Row>, table: Table, entries: seq<Entry>, autoWhitelist: bool,
                                           ids: seq<int>, k: nat)
    requires Refreshable(rows, table, entries, autoWhitelist, ids) && k < |entries| && Unmatched(table, entries[k])
    ensures GuidStored(Refresh(rows, table, entries, autoWhitelist, ids), entries[k].guid)
  {
    MatchFinds(rows, table, entries[k]);
    MakesPost(rows, entries, autoWhitelist, k);
    var posts := NewPosts(rows, entries, autoWhitelist);
    var j :| 0 <= j < |posts| && posts[j] == NewPost(entries[k], Oldest(rows), autoWhitelist);
    InsertedRow(rows, table, entries, autoWhitelist, ids, j);
  }

  /** Two posts of the table after the round, one of them stored before, differ in guid and URL. */
  lemma {:induction false} KeysDiffer(table: Table, entries: seq<Entry>, a: int, b: int, p: Post, q: Post)
    requires Keyed(table) && Distinct(entries) && a in table && p.url == table[a].url
    requires forall k :: 0 <= k < |entries| && ByUrlOnly(table, entries[k], a) ==> p.guid == entries[k].guid
    requires (forall k :: 0 <= k < |entries| ==> !ByUrlOnly(table, entries[k], a)) ==> p.guid == table[a].guid
    requires if b in table then
               && b != a && q.url == table[b].url
               && (forall k :: 0 <= k < |entries| && ByUrlOnly(table, entries[k], b) ==> q.guid == entries[k].guid)
               && ((forall k :: 0 <= k < |entries| ==> !ByUrlOnly(table, entries[k], b)) ==> q.guid == table[b].guid)
             else AddedFor(table, entries, q)
    ensures p.guid != q.guid && p.url != q.url
  {
    if k :| 0 <= k < |entries| && ByUrlOnly(table, entries[k], a) {
      var stored := GuidStored(table, entries[k].guid);
      if b in table {
        if i :| 0 <= i < |entries| && ByUrlOnly(table, entries[i], b) {
          assert i != k;
        } else {
          assert q.guid == table[b].guid;
        }
      } else {
        var i :| 0 <= i < |entries| && Unmatched(table, entries[i])
                 && q.guid == entries[i].guid && q.url == entries[i].url;
        assert i != k;
      }
    } else {
      assert p.guid == table[a].guid;
      if b in table {
        if i :| 0 <= i < |entries| && ByUrlOnly(table, entries[i], b) {
          var stored := GuidStored(table, entries[i].guid);
        }
      }
    }
  }

  lemma {:induction false} RowKeysDiffer(rows: seq<Row>, table: Table, entries: seq<Entry>, autoWhitelist: bool,
                                         ids: seq<int>, a: int, b: int)
    requires Refreshable(rows, table, entries, autoWhitelist, ids)
    requires a != b && (a in table || a in ids) && (b in table || b in ids)
    ensures var after := Refresh(rows, table, entries, autoWhitelist, ids);
            a in after && b in after && after[a].guid != after[b].guid && after[a].url != after[b].url
  {
    hide Refresh, NewPosts, Keyed, Distinct, Lists, AddedFor, ByUrlOnly;
    var after := Refresh(rows, table, entries, autoWhitelist, ids);
    if a in table {
      StoredKeys(rows, table, entries, autoWhitelist, ids, a);
    } else {
      var i :| 0 <= i < |ids| && ids[i] == a;
      AddedKeys(rows, table, entries, autoWhitelist, ids, i);
    }
    if b in table {
      StoredKeys(rows, table, entries, autoWhitelist, ids, b);
    } else {
      var j :| 0 <= j < |ids| && ids[j] == b;
      AddedKeys(rows, table, entries, autoWhitelist, ids, j);
    }
    if a in table {
      KeysDiffer(table, entries, a, b, after[a], after[b]);
    } else if b in table {
      KeysDiffer(table, entries, b, a, after[b], after[a]);
    } else {
      AddedDiffer(rows, table, entries, autoWhitelist, ids, a, b);
    }
  }

  lemma {:induction false} AddedDiffer(rows: seq<Row>, table: Table, entries: seq<Entry>, autoWhitelist: bool,
                                       ids: seq<int>, a: int, b: int)
    requires Refreshable(rows, table, entries, autoWhitelist, ids) && a != b && a in ids && b in ids
    ensures var after := Refresh(rows, table, entries, autoWhitelist, ids);
            a in after && b in after && after[a].guid != after[b].guid && after[a].url != after[b].url
  {
    var i :| 0 <= i < |ids| && ids[i] == a;
    var j :| 0 <= j < |ids| && ids[j] == b;
    InsertedRow(rows, table, entries, autoWhitelist, ids, i);
    InsertedRow(rows, table, entries, autoWhitelist, ids, j);
    NewPostsDiffer(rows, entries, autoWhitelist, Min(i, j), Max(i, j));
  }

  lemma {:induction false} RefreshedIds(rows: seq<Row>, table: Table, entries: seq<Entry>, autoWhitelist: bool,
                                        ids: seq<int>, id: int)
    requires |ids| == |NewPosts(rows, entries, autoWhitelist)|
    ensures id in Refresh(rows, table, entries, autoWhitelist, ids) <==> id in table || id in ids
  {
    var posts := NewPosts(rows, entries, autoWhitelist);
    UpdatesKeepKeys(Insert(table, posts, ids), Updates(rows, entries));
    InsertKeeps(table, posts, ids, id);
  }

  /** A round keeps the database's constraints, so the writer's transaction can commit. */
  lemma {:induction false} RefreshKeepsKeys(rows: seq<Row>, table: Table, entries: seq<Entry>, autoWhitelist: bool,
                                            ids: seq<int>)
    requires Refreshable(rows, table, entries, autoWhitelist, ids)
    ensures Keyed(Refresh(rows, table, entries, autoWhitelist, ids))
  {
    hide NewPosts, Distinct, Lists, Refresh;
    var after := Refresh(rows, table, entries, autoWhitelist, ids);
    forall id
      ensures id in after <==> id in table || id in ids
    {
      RefreshedIds(rows, table, entries, autoWhitelist, ids, id);
    }
    forall a, b | a in after && b in after && a != b
      ensures after[a].guid != after[b].guid && after[a].url != after[b].url
    {
      RowKeysDiffer(rows, table, entries, autoWhitelist, ids, a, b);
    }
  }

  lemma {:induction false} RefreshIsKeyRound(rows: seq<Row>, table: Table, entries: seq<Entry>, autoWhitelist: bool,
                                             ids: seq<int>)
    requires Refreshable(rows, table, entries, autoWhitelist, ids)
    ensures KeyRound(table, entries, Refresh(rows, table, entries, autoWhitelist, ids))
  {
    hide NewPosts, Distinct, Lists, Refresh, Keyed, AddedFor;
    var after := Refresh(rows, table, entries, autoWhitelist, ids);
    RefreshKeepsKeys(rows, table, entries, autoWhitelist, ids);
    forall id | id in table
      ensures id in after && after[id].url == table[id].url
      ensures forall k :: 0 <= k < |entries| && ByUrlOnly(table, entries[k], id) ==> after[id].guid == entries[k].guid
      ensures (forall k :: 0 <= k < |entries| ==> !ByUrlOnly(table, entries[k], id)) ==>
                after[id].guid == table[id].guid
    {
      StoredKeys(rows, table, entries, autoWhitelist, ids, id);
    }
    forall id | id in after && id !in table
      ensures AddedFor(table, entries, after[id])
    {
      RefreshedIds(rows, table, entries, autoWhitelist, ids, id);
      var j :| 0 <= j < |ids| && ids[j] == id;
      AddedKeys(rows, table, entries, autoWhitelist, ids, j);
    }
    forall k | 0 <= k < |entries| && Unmatched(table, entries[k])
      ensures GuidStored(after, entries[k].guid)
    {
      UnmatchedStored(rows, table, entries, autoWhitelist, ids, k);
    }
  }

  /** After a round the entry has a post as it wants it. */
  lemma {:induction false} RefreshSettles(rows: seq<Row>, table: Table, entries: seq<Entry>, autoWhitelist: bool,
                                          ids: seq<int>, k: nat)
    requires Refreshable(rows, table, entries, autoWhitelist, ids) && NotShared(table, entries) && k < |entries|
    ensures Settled(Refresh(rows, table, entries, autoWhitelist, ids), entries[k])
  {
    var posts, after := NewPosts(rows, entries, autoWhitelist), Refresh(rows, table, entries, autoWhitelist, ids);
    var e := entries[k];
    MatchFinds(rows, table, e);
    if Match(rows, e).Some? {
      var id := Match(rows, e).value.id;
      InsertKeeps(table, posts, ids, id);
      RefreshedRow(rows, table, Insert(table, posts, ids), entries, id, k);
      assert after[id] == Refreshed(table[id], e);
    } else {
      MakesPost(rows, entries, autoWhitelist, k);
      var j :| 0 <= j < |posts| && posts[j] == NewPost(e, Oldest(rows), autoWhitelist);
      InsertedRow(rows, table, entries, autoWhitelist, ids, j);
      assert Refreshed(after[ids[j]], e) == after[ids[j]];
    }
  }

  // ---------- chains of moved guids ----------

  /** Entry a's audio is stored under entry b's guid. */
  ghost predicate Moved(table: Table, a: Entry, b: Entry) {
    exists id :: id in table && table[id].url == a.url && table[id].guid == b.guid
  }

  /** A chain starts with an entry whose guid is not stored, and each entry's audio is stored under the guid of
      the next one. */
  ghost predicate Chain(table: Table, items: seq<Entry>, path: seq<nat>) {
    && path != [] && (forall i :: 0 <= i < |path| ==> path[i] < |items|)
    && !GuidStored(table, items[path[0]].guid)
    && (forall i :: 0 <= i < |path| - 1 ==> ChainLink(table, items, path, i))
  }

  ghost predicate ChainLink(table: Table, items: seq<Entry>, path: seq<nat>, i: nat)
    requires i + 1 < |path| && path[i] < |items| && path[i + 1] < |items|
  {
    path[i] != path[i + 1] && Moved(table, items[path[i]], items[path[i + 1]])
  }

  /** Some guid moves along `n` stored posts. */
  ghost predicate HasChain(table: Table, items: seq<Entry>, n: nat) {
    exists path :: |path| == n + 1 && Chain(table, items, path)
  }

  /** A post is matched twice exactly when there is a chain of one. */
  lemma {:induction false} SharedIsChain(table: Table, items: seq<Entry>)
    requires Keyed(table) && Distinct(items)
    ensures NotShared(table, items) <==> !HasChain(table, items, 1)
  {
    if i, j, id :| 0 <= i < j < |items| && Matches(table, items[i], id) && Matches(table, items[j], id) {
      var path := if table[id].guid == items[j].guid then [i, j] else [j, i];
      assert ChainLink(table, items, path, 0);
      assert Chain(table, items, path);
    }
    if path :| |path| == 2 && Chain(table, items, path) {
      assert ChainLink(table, items, path, 0);
      var id :| id in table && table[id].url == items[path[0]].url && table[id].guid == items[path[1]].guid;
      assert Matches(table, items[path[0]], id) && Matches(table, items[path[1]], id);
      var i, j := Min(path[0], path[1]), Max(path[0], path[1]);
      assert Matches(table, items[i], id) && Matches(table, items[j], id);
    }
  }

  /** Another entry takes over the post with entry k's guid. */
  ghost predicate Displaced(table: Table, items: seq<Entry>, k: nat)
    requires k < |items|
  {
    exists a, id :: 0 <= a < |items| && ByUrlOnly(table, items[a], id) && table[id].guid == items[k].guid
  }

  /** After a round an entry's guid is stored unless another entry has taken its post over. */
  lemma {:induction false} StoredUnlessDisplaced(table: Table, items: seq<Entry>, after: Table, k: nat)
    requires Keyed(table) && Distinct(items) && KeyRound(table, items, after) && k < |items|
    ensures GuidStored(after, items[k].guid) <==> !Displaced(table, items, k)
  {
    if a, id :| 0 <= a < |items| && ByUrlOnly(table, items[a], id) && table[id].guid == items[k].guid {
      DisplacedIsLost(table, items, after, a, id, k);
    } else if id :| id in table && table[id].guid == items[k].guid {
      assert after[id].guid == items[k].guid;
    } else if id :| id in table && table[id].url == items[k].url {
      assert ByUrlOnly(table, items[k], id);
    }
  }

  lemma {:induction false} DisplacedIsLost(table: Table, items: seq<Entry>, after: Table, a: nat, id: int, k: nat)
    requires Keyed(table) && Distinct(items) && KeyRound(table, items, after) && k < |items| && a < |items|
    requires ByUrlOnly(table, items[a], id) && table[id].guid == items[k].guid
    ensures !GuidStored(after, items[k].guid) && a != k
  {
    assert GuidStored(table, items[k].guid);
    forall other | other in after
      ensures after[other].guid != items[k].guid
    {
      if other in table {
        if i :| 0 <= i < |items| && ByUrlOnly(table, items[i], other) {
          assert i != k;
        } else {
          assert other != id;
        }
      } else {
        var i :| 0 <= i < |items| && Unmatched(table, items[i]) && after[other].guid == items[i].guid;
        assert i != k;
      }
    }
  }

  /** A post that an entry with a stored guid is known by keeps its guid through the round. */
  lemma {:induction false} MoveStays(table: Table, items: seq<Entry>, after: Table, a: nat, b: nat)
    requires Keyed(table) && Distinct(items) && KeyRound(table, items, after) && a < |items| && b < |items| && a != b
    requires GuidStored(table, items[a].guid)
    ensures Moved(after, items[a], items[b]) <==> Moved(table, items[a], items[b])
  {
    if id :| id in table && table[id].url == items[a].url && table[id].guid == items[b].guid {
      forall k | 0 <= k < |items|
        ensures !ByUrlOnly(table, items[k], id)
      {
      }
      assert after[id].guid == items[b].guid;
    }
    if id :| id in after && after[id].url == items[a].url && after[id].guid == items[b].guid {
      if id in table {
        forall k | 0 <= k < |items|
          ensures !ByUrlOnly(table, items[k], id)
        {
        }
      }
    }
  }

  /** A round takes the first entry off every chain. */
  lemma {:induction false} ChainShortens(table: Table, items: seq<Entry>, after: Table, path: seq<nat>)
    requires Keyed(table) && Distinct(items) && KeyRound(table, items, after)
    requires Chain(table, items, path) && |path| > 1
    ensures Chain(after, items, path[1..])
  {
    var rest := path[1..];
    assert ChainLink(table, items, path, 0);
    var id :| id in table && table[id].url == items[path[0]].url && table[id].guid == items[path[1]].guid;
    DisplacedIsLost(table, items, after, path[0], id, path[1]);
    forall i | 0 <= i < |rest| - 1
      ensures ChainLink(after, items, rest, i)
    {
      assert ChainLink(table, items, path, i) && ChainLink(table, items, path, i + 1);
      ChainStored(table, items, path, i + 1);
      MoveStays(table, items, after, rest[i], rest[i + 1]);
    }
  }

  /** All guids of a chain but the first are stored. */
  lemma {:induction false} ChainStored(table: Table, items: seq<Entry>, path: seq<nat>, i: nat)
    requires Chain(table, items, path) && 0 < i < |path|
    ensures GuidStored(table, items[path[i]].guid)
  {
    assert ChainLink(table, items, path, i - 1);
  }

  /** Every chain after a round was one longer before it. */
  lemma {:induction false} ChainExtends(table: Table, items: seq<Entry>, after: Table, path: seq<nat>)
    returns (longer: seq<nat>)
    requires Keyed(table) && Distinct(items) && KeyRound(table, items, after) && Chain(after, items, path)
    ensures Chain(table, items, longer) && |longer| == |path| + 1
  {
    hide Keyed, KeyRound, Distinct;
    StoredUnlessDisplaced(table, items, after, path[0]);
    var a, id :| 0 <= a < |items| && ByUrlOnly(table, items[a], id) && table[id].guid == items[path[0]].guid;
    longer := [a] + path;
    var stored := GuidStored(table, items[path[0]].guid);
    forall i | 0 <= i < |longer| - 1
      ensures ChainLink(table, items, longer, i)
    {
      if i > 0 {
        assert ChainLink(after, items, path, i - 1);
        ChainBefore(table, items, after, path, i - 1);
        MoveStays(table, items, after, path[i - 1], path[i]);
      }
    }
  }

  /** The guids of a chain after a round were stored before it. */
  lemma {:induction false} ChainBefore(table: Table, items: seq<Entry>, after: Table, path: seq<nat>, i: nat)
    requires Keyed(table) && Distinct(items) && KeyRound(table, items, after) && Chain(after, items, path) && i < |path|
    ensures GuidStored(table, items[path[i]].guid)
  {
    if i == 0 {
      StoredUnlessDisplaced(table, items, after, path[0]);
    } else {
      hide Keyed, KeyRound, Distinct;
      ChainBefore(table, items, after, path, i - 1);
      assert ChainLink(after, items, path, i - 1);
      MoveStays(table, items, after, path[i - 1], path[i]);
    }
  }

  lemma {:induction false} ChainsShorten(table: Table, items: seq<Entry>, after: Table, n: nat)
    requires Keyed(table) && Distinct(items) && KeyRound(table, items, after)
    ensures HasChain(after, items, n) <==> HasChain(table, items, n + 1)
  {
    if path :| |path| == n + 1 && Chain(after, items, path) {
      var longer := ChainExtends(table, items, after, path);
    }
    if path :| |path| == n + 2 && Chain(table, items, path) {
      ChainShortens(table, items, after, path);
    }
  }

  /** No entry is twice in a chain: its first guid is not stored, and the guid stored with a URL has one
      predecessor. */
  lemma {:induction false} ChainDistinct(table: Table, items: seq<Entry>, path: seq<nat>, i: nat, j: nat)
    requires Keyed(table) && Distinct(items) && Chain(table, items, path) && i < j < |path|
    ensures path[i] != path[j]
    decreases i
  {
    ChainStored(table, items, path, j);
    if i > 0 {
      ChainDistinct(table, items, path, i - 1, j - 1);
      assert ChainLink(table, items, path, i - 1) && ChainLink(table, items, path, j - 1);
    }
  }

  lemma {:induction false} FewBelow(s: set<nat>, n: nat)
    requires forall k :: k in s ==> k < n
    ensures |s| <= n
  {
    if n > 0 {
      var fewer := s - {n - 1};
      FewBelow(fewer, n - 1);
      assert s == fewer || s == fewer + {n - 1};
    } else {
      assert s == {};
    }
  }

  function Elements(path: seq<nat>): set<nat> {
    if path == [] then {} else Elements(path[..|path| - 1]) + {path[|path| - 1]}
  }

  lemma {:induction false} DistinctCount(path: seq<nat>)
    requires forall i, j :: 0 <= i < j < |path| ==> path[i] != path[j]
    ensures |Elements(path)| == |path| && forall k :: k in Elements(path) ==> k in path
  {
    if path != [] {
      DistinctCount(path[..|path| - 1]);
    }
  }

  /** A chain is no longer than the feed. */
  lemma {:induction false} ChainsAreShort(table: Table, items: seq<Entry>, n: nat)
    requires Keyed(table) && Distinct(items) && HasChain(table, items, n)
    ensures n < |items|
  {
    var path :| |path| == n + 1 && Chain(table, items, path);
    forall i, j | 0 <= i < j < |path|
      ensures path[i] != path[j]
    {
      ChainDistinct(table, items, path, i, j);
    }
    DistinctCount(path);
    FewBelow(Elements(path), |items|);
  }

  // ---------- convergence ----------

  /** What the database holds before a round, and the ids it will hand out in it. */
  ghost predicate Ready(s: State, rows: seq<Row>, channelImage: Option<string>, items: seq<Entry>, autoWhitelist: bool,
                        ids: seq<int>)
  {
    && Keyed(s.table) && Lists(rows, s.table) && Distinct(items)
    && |ids| == |PlanOf(s.image, rows, channelImage, items, autoWhitelist).newPosts| && FreshIds(ids, s.table)
  }

  /** Planning against the stored posts and applying the plan. */
  function Round(s: State, rows: seq<Row>, channelImage: Option<string>, items: seq<Entry>, autoWhitelist: bool,
                 ids: seq<int>): State
    requires |ids| == |PlanOf(s.image, rows, channelImage, items, autoWhitelist).newPosts|
  {
    Apply(s, PlanOf(s.image, rows, channelImage, items, autoWhitelist), ids)
  }

  const NOTHING := Plan(None, [], [])

  lemma {:induction false} RoundIsRefresh(s: State, rows: seq<Row>, channelImage: Option<string>, items: seq<Entry>,
                                          autoWhitelist: bool, ids: seq<int>)
    requires |ids| == |PlanOf(s.image, rows, channelImage, items, autoWhitelist).newPosts|
    ensures Round(s, rows, channelImage, items, autoWhitelist, ids)
         == State(if channelImage.Some? then channelImage else s.image,
                  Refresh(rows, s.table, Entries(items, s.image), autoWhitelist, ids))
  {
  }

  /** The artwork an entry falls back to does not matter for matching. */
  ghost predicate SameKeys(entries: seq<Entry>, others: seq<Entry>) {
    && |entries| == |others|
    && forall k :: 0 <= k < |entries| ==> entries[k].guid == others[k].guid && entries[k].url == others[k].url
  }

  lemma {:induction false} KeyRoundSame(table: Table, entries: seq<Entry>, items: seq<Entry>, after: Table)
    requires SameKeys(entries, items) && KeyRound(table, entries, after)
    ensures KeyRound(table, items, after)
  {
    assert forall k, id :: 0 <= k < |items| ==> (ByUrlOnly(table, items[k], id) <==> ByUrlOnly(table, entries[k], id));
    assert forall k :: 0 <= k < |items| ==> (Unmatched(table, items[k]) <==> Unmatched(table, entries[k]));
    forall id | id in after && id !in table
      ensures AddedFor(table, items, after[id])
    {
      assert AddedFor(table, entries, after[id]);
    }
  }

  /** A round keeps the database's constraints, and takes one off every chain. */
  lemma {:induction false} RoundKeys(s: State, rows: seq<Row>, channelImage: Option<string>, items: seq<Entry>,
                                     autoWhitelist: bool, ids: seq<int>, next: State)
    requires Ready(s, rows, channelImage, items, autoWhitelist, ids)
    requires next == Round(s, rows, channelImage, items, autoWhitelist, ids)
    ensures Keyed(next.table) && next.image == if channelImage.Some? then channelImage else s.image
    ensures forall n: nat :: HasChain(next.table, items, n) <==> HasChain(s.table, items, n + 1)
  {
    hide Apply, NewPosts, Keyed, Lists, HasChain, KeyRound;
    var entries := Entries(items, s.image);
    RoundIsRefresh(s, rows, channelImage, items, autoWhitelist, ids);
    RefreshKeepsKeys(rows, s.table, entries, autoWhitelist, ids);
    RefreshIsKeyRound(rows, s.table, entries, autoWhitelist, ids);
    KeyRoundSame(s.table, entries, items, next.table);
    forall n: nat
      ensures HasChain(next.table, items, n) <==> HasChain(s.table, items, n + 1)
    {
      ChainsShorten(s.table, items, next.table, n);
    }
  }

  /** Where no post is matched twice, a round settles every entry. */
  lemma {:induction false} RoundSettles(s: State, rows: seq<Row>, channelImage: Option<string>, items: seq<Entry>,
                                        autoWhitelist: bool, ids: seq<int>, next: State)
    requires Ready(s, rows, channelImage, items, autoWhitelist, ids) && NotShared(s.table, items)
    requires next == Round(s, rows, channelImage, items, autoWhitelist, ids)
    ensures AllSettled(next.table, Entries(items, s.image))
  {
    hide Apply, NewPosts, Keyed, Lists, Settled;
    var entries := Entries(items, s.image);
    RoundIsRefresh(s, rows, channelImage, items, autoWhitelist, ids);
    assert forall k, id :: 0 <= k < |items| ==> (Matches(s.table, items[k], id) <==> Matches(s.table, entries[k], id));
    assert NotShared(s.table, entries);
    forall k | 0 <= k < |entries|
      ensures Settled(next.table, entries[k])
    {
      RefreshSettles(rows, s.table, entries, autoWhitelist, ids, k);
    }
  }

  /** A settled entry's guid is stored. */
  lemma {:induction false} SettledHasNoChain(table: Table, items: seq<Entry>, image: Option<string>)
    requires AllSettled(table, Entries(items, image))
    ensures !HasChain(table, items, 0)
  {
    if path :| |path| == 1 && Chain(table, items, path) {
      var settled := Settled(table, Entries(items, image)[path[0]]);
    }
  }

  /** Two fallbacks settle the same posts exactly when they agree or no item uses them. */
  lemma {:induction false} FallbackSettles(table: Table, items: seq<Entry>, image: Option<string>,
                                           other: Option<string>)
    requires Keyed(table) && AllSettled(table, Entries(items, image))
    ensures AllSettled(table, Entries(items, other))
            <==> image == other || forall k :: 0 <= k < |items| ==> items[k].imageUrl.Some?
  {
    var before, after := Entries(items, image), Entries(items, other);
    forall k | 0 <= k < |items|
      ensures Settled(table, after[k]) <==> image == other || items[k].imageUrl.Some?
    {
      assert Settled(table, before[k]);
      var id :| id in table && table[id].guid == before[k].guid && Refreshed(table[id], before[k]) == table[id];
      assert forall other :: other in table && other != id ==> table[other].guid != table[id].guid;
    }
  }

  /** After a round every entry is settled exactly when no post was matched twice and the artwork stayed or no
      item falls back to it. */
  lemma {:induction false} SettledAfterRound(s: State, rows: seq<Row>, channelImage: Option<string>, items: seq<Entry>,
                                             autoWhitelist: bool, ids: seq<int>, next: State)
    requires Ready(s, rows, channelImage, items, autoWhitelist, ids)
    requires next == Round(s, rows, channelImage, items, autoWhitelist, ids)
    ensures AllSettled(next.table, Entries(items, next.image))
            <==> NotShared(s.table, items)
                 && (next.image == s.image || forall k :: 0 <= k < |items| ==> items[k].imageUrl.Some?)
  {
    hide Apply, Keyed, Lists, Settled, NotShared, HasChain, AllSettled, Distinct, Entries, FreshIds, PlanOf, Round;
    RoundKeys(s, rows, channelImage, items, autoWhitelist, ids, next);
    SharedIsChain(s.table, items);
    if NotShared(s.table, items) {
      RoundSettles(s, rows, channelImage, items, autoWhitelist, ids, next);
      FallbackSettles(next.table, items, s.image, next.image);
    } else {
      assert HasChain(s.table, items, 0 + 1);
      if AllSettled(next.table, Entries(items, next.image)) {
        SettledHasNoChain(next.table, items, next.image);
      }
    }
  }

  /** A plan made after a round, when the artwork already is the channel's, is empty exactly when all is settled. */
  lemma {:induction false} ReplanEmpty(s: State, rows: seq<Row>, channelImage: Option<string>, items: seq<Entry>,
                                       autoWhitelist: bool)
    requires Keyed(s.table) && Lists(rows, s.table) && (channelImage.Some? ==> s.image == channelImage)
    ensures PlanOf(s.image, rows, channelImage, items, autoWhitelist) == NOTHING
            <==> AllSettled(s.table, Entries(items, s.image))
  {
    EmptyWhenSettled(rows, s.table, Entries(items, s.image), autoWhitelist);
  }

  /** Settled entries want no new posts, whatever artwork they fall back to. */
  lemma {:induction false} SettledNeedNoPosts(rows: seq<Row>, table: Table, entries: seq<Entry>, others: seq<Entry>,
                                              autoWhitelist: bool)
    requires Lists(rows, table) && AllSettled(table, others) && |entries| == |others|
    requires forall k :: 0 <= k < |entries| ==> entries[k].guid == others[k].guid
    ensures NewPosts(rows, entries, autoWhitelist) == []
  {
    if entries != [] {
      var n := |entries| - 1;
      SettledNeedNoPosts(rows, table, entries[..n], others[..n], autoWhitelist);
      assert Settled(table, others[n]);
      MatchFinds(rows, table, entries[n]);
    }
  }

  /** The plan after one round is empty exactly when no post was matched twice and the feed's artwork stayed the
      same or every item carries its own: entries fall back to the artwork stored before the round. Where no post
      was matched twice it adds none. */
  lemma {:induction false} OneRound(s: State, rows: seq<Row>, channelImage: Option<string>, items: seq<Entry>,
                                    autoWhitelist: bool, ids: seq<int>, nextRows: seq<Row>)
    requires Ready(s, rows, channelImage, items, autoWhitelist, ids)
    requires Lists(nextRows, Round(s, rows, channelImage, items, autoWhitelist, ids).table)
    ensures var next := Round(s, rows, channelImage, items, autoWhitelist, ids);
            var replan := PlanOf(next.image, nextRows, channelImage, items, autoWhitelist);
            && replan.feedImage.None? && (NotShared(s.table, items) ==> replan.newPosts == [])
            && (replan == NOTHING
                <==> NotShared(s.table, items)
                     && (next.image == s.image || forall k :: 0 <= k < |items| ==> items[k].imageUrl.Some?))
  {
    hide Apply, Keyed, Lists, Settled, NotShared, HasChain, AllSettled, Distinct, FreshIds, NewPosts, Updates, Round;
    var next := Round(s, rows, channelImage, items, autoWhitelist, ids);
    if NotShared(s.table, items) {
      RoundSettles(s, rows, channelImage, items, autoWhitelist, ids, next);
      SettledNeedNoPosts(nextRows, next.table, Entries(items, next.image), Entries(items, s.image), autoWhitelist);
    }
    RoundKeys(s, rows, channelImage, items, autoWhitelist, ids, next);
    SettledAfterRound(s, rows, channelImage, items, autoWhitelist, ids, next);
    ReplanEmpty(next, nextRows, channelImage, items, autoWhitelist);
  }

  /** Rounds of the same fetched feed, each with the rows it reads and the ids it is given. */
  ghost predicate IsRounds(states: seq<State>, rows: seq<seq<Row>>, ids: seq<seq<int>>, channelImage: Option<string>,
                           items: seq<Entry>, autoWhitelist: bool)
  {
    && |states| == |rows| + 1 == |ids| + 1
    && forall i :: 0 <= i < |rows| ==>
        IsRound(states[i], rows[i], ids[i], channelImage, items, autoWhitelist, states[i + 1])
  }

  ghost predicate IsRound(s: State, rows: seq<Row>, ids: seq<int>, channelImage: Option<string>, items: seq<Entry>,
                          autoWhitelist: bool, next: State)
  {
    && Ready(s, rows, channelImage, items, autoWhitelist, ids)
    && next == Round(s, rows, channelImage, items, autoWhitelist, ids)
  }

  /** After i rounds chains are i shorter, and from the first round on the artwork is the channel's. */
  lemma {:induction false} ChainsAfter(states: seq<State>, rows: seq<seq<Row>>, ids: seq<seq<int>>,
                                       channelImage: Option<string>, items: seq<Entry>, autoWhitelist: bool, i: nat,
                                       n: nat)
    requires IsRounds(states, rows, ids, channelImage, items, autoWhitelist) && i < |states|
    ensures HasChain(states[i].table, items, n) <==> HasChain(states[0].table, items, n + i)
    ensures i > 0 ==> Keyed(states[i].table)
    ensures i > 0 ==> states[i].image == if channelImage.Some? then channelImage else states[0].image
  {
    if i > 0 {
      hide HasChain, Ready, Round, Keyed;
      assert IsRound(states[i - 1], rows[i - 1], ids[i - 1], channelImage, items, autoWhitelist, states[i]);
      RoundKeys(states[i - 1], rows[i - 1], channelImage, items, autoWhitelist, ids[i - 1], states[i]);
      ChainsAfter(states, rows, ids, channelImage, items, autoWhitelist, i - 1, n + 1);
      assert (n + 1) + (i - 1) == n + i;
    }
  }

  /** How many rounds a feed needs: after two or more, the next plan is empty exactly when no chain of that many
      moved guids was stored at first. */
  lemma {:induction false} RoundsNeeded(states: seq<State>, rows: seq<seq<Row>>, ids: seq<seq<int>>,
                                        channelImage: Option<string>, items: seq<Entry>, autoWhitelist: bool,
                                        lastRows: seq<Row>)
    requires IsRounds(states, rows, ids, channelImage, items, autoWhitelist) && |rows| >= 2
    requires Lists(lastRows, states[|rows|].table)
    ensures PlanOf(states[|rows|].image, lastRows, channelImage, items, autoWhitelist) == NOTHING
            <==> !HasChain(states[0].table, items, |rows|)
  {
    hide HasChain, Ready, Round, Keyed, NotShared, PlanOf, Lists;
    var n := |rows|;
    var s, last := states[n - 1], states[n];
    assert IsRound(s, rows[n - 1], ids[n - 1], channelImage, items, autoWhitelist, last);
    ChainsAfter(states, rows, ids, channelImage, items, autoWhitelist, n - 1, 1);
    ChainsAfter(states, rows, ids, channelImage, items, autoWhitelist, n, 0);
    assert 1 + (n - 1) == n;
    ReadyDistinct(s, rows[n - 1], channelImage, items, autoWhitelist, ids[n - 1]);
    SharedIsChain(s.table, items);
    SettledAfterRound(s, rows[n - 1], channelImage, items, autoWhitelist, ids[n - 1], last);
    ReplanEmpty(last, lastRows, channelImage, items, autoWhitelist);
  }

  lemma {:induction false} ReadyDistinct(s: State, rows: seq<Row>, channelImage: Option<string>, items: seq<Entry>,
                                         autoWhitelist: bool, ids: seq<int>)
    requires Ready(s, rows, channelImage, items, autoWhitelist, ids)
    ensures Distinct(items) && Keyed(s.table)
  {
  }

  /** Every feed converges: after as many rounds as it has items, and at least two, the plan is empty. */
  lemma {:induction false} AlwaysConverges(states: seq<State>, rows: seq<seq<Row>>, ids: seq<seq<int>>,
                                           channelImage: Option<string>, items: seq<Entry>, autoWhitelist: bool,
                                           lastRows: seq<Row>)
    requires IsRounds(states, rows, ids, channelImage, items, autoWhitelist) && |rows| >= Max(2, |items|)
    requires Lists(lastRows, states[|rows|].table)
    ensures PlanOf(states[|rows|].image, lastRows, channelImage, items, autoWhitelist) == NOTHING
  {
    hide HasChain, Round, Keyed, PlanOf, Lists;
    RoundsNeeded(states, rows, ids, channelImage, items, autoWhitelist, lastRows);
    assert IsRound(states[0], rows[0], ids[0], channelImage, items, autoWhitelist, states[1]);
    ReadyDistinct(states[0], rows[0], channelImage, items, autoWhitelist, ids[0]);
    if HasChain(states[0].table, items, |rows|) {
      ChainsAreShort(states[0].table, items, |rows|);
    }
  }

  /** Two rounds suffice exactly when no two guids have moved in a row. */
  lemma {:induction false} TwoRounds(s: State, rows: seq<Row>, channelImage: Option<string>, items: seq<Entry>,
                                     autoWhitelist: bool, ids: seq<int>, next: State, nextRows: seq<Row>,
                                     nextIds: seq<int>, last: State, lastRows: seq<Row>)
    requires IsRound(s, rows, ids, channelImage, items, autoWhitelist, next)
    requires IsRound(next, nextRows, nextIds, channelImage, items, autoWhitelist, last) && Lists(lastRows, last.table)
    ensures PlanOf(last.image, lastRows, channelImage, items, autoWhitelist) == NOTHING
            <==> !HasChain(s.table, items, 2)
  {
    hide HasChain, IsRound, PlanOf, Lists;
    RoundsNeeded([s, next, last], [rows, nextRows], [ids, nextIds], channelImage, items, autoWhitelist, lastRows);
  }

  // ---------- a chain of two ----------

  function Plain(guid: string, url: string): Post {
    Post(guid, url, "", None, None, None, None, None, false)
  }

  function PlainItem(guid: string, url: string): Entry {
    Entry(guid, url, "", "", None, None, None)
  }

  /** Two stored posts. */
  function TwoRows(first: Post, second: Post): seq<Row> { [Row(1, first), Row(2, second)] }

  function TwoPosts(first: Post, second: Post): Table { map[1 := first, 2 := second] }

  const SHIFTED := [PlainItem("x", "u"), PlainItem("a", "v"), PlainItem("b", "w")]

  lemma {:induction false} MapsGrow(rows: seq<Row>, row: Row)
    ensures ByGuid(rows + [row]) == ByGuid(rows)[row.post.guid := row]
    ensures ByUrl(rows + [row]) == ByUrl(rows)[row.post.url := row]
  {
    assert (rows + [row])[..|rows|] == rows;
  }

  lemma {:induction false} Letters()
    ensures var l := ["x", "a", "b", "u", "v", "w"]; forall i, j :: 0 <= i < j < |l| ==> l[i] != l[j]
  {
    var l := ["x", "a", "b", "u", "v", "w"];
    assert forall i, j :: 0 <= i < j < |l| ==> l[i][0] != l[j][0];
  }

  function Repair(id: int, guid: string): Update {
    Update(id, Some(guid), None, None, None, None)
  }

  lemma {:induction false} RowMaps(first: string, second: string)
    ensures var rows := TwoRows(Plain(first, "u"), Plain(second, "v"));
            var one, two := Row(1, Plain(first, "u")), Row(2, Plain(second, "v"));
            ByGuid(rows) == map[first := one][second := two] && ByUrl(rows) == map["u" := one]["v" := two]
  {
    var one, two := Row(1, Plain(first, "u")), Row(2, Plain(second, "v"));
    assert [] + [one] == [one] && [one] + [two] == TwoRows(Plain(first, "u"), Plain(second, "v"));
    MapsGrow([], one);
    MapsGrow([one], two);
  }

  lemma {:induction false} ShiftedMatches(first: string, second: string)
    requires (first == "a" && second == "b") || (first == "x" && (second == "b" || second == "a"))
    ensures var rows := TwoRows(Plain(first, "u"), Plain(second, "v"));
            && UpdateFor(rows, SHIFTED[0]) == (if first == "a" then Some(Repair(1, "x")) else None)
            && UpdateFor(rows, SHIFTED[1]) == (if first != "a" && second == "b" then Some(Repair(2, "a")) else None)
            && UpdateFor(rows, SHIFTED[2]) == None
            && Match(rows, SHIFTED[0]).Some? && Match(rows, SHIFTED[1]).Some?
            && (Match(rows, SHIFTED[2]).Some? <==> second == "b")
  {
    hide ByGuid, ByUrl;
    Letters();
    RowMaps(first, second);
  }

  /** What the shifted items make of two posts at `u` and `v`. */
  lemma {:induction false} ShiftedPlan(first: string, second: string)
    requires (first == "a" && second == "b") || (first == "x" && (second == "b" || second == "a"))
    ensures var plan := PlanOf(None, TwoRows(Plain(first, "u"), Plain(second, "v")), None, SHIFTED, false);
            && plan.feedImage.None?
            && plan.updates == (if first == "a" then [Repair(1, "x")] else if second == "b" then [Repair(2, "a")]
                                else [])
            && (plan.newPosts == [] <==> second == "b")
  {
    hide UpdateFor, Match, Updates, NewPosts;
    ShiftedMatches(first, second);
    var rows := TwoRows(Plain(first, "u"), Plain(second, "v"));
    assert Entries(SHIFTED, None) == SHIFTED == SHIFTED[..3] && SHIFTED[..0] == [];
    NothingToPlan(rows, false);
    PlanGrows(rows, SHIFTED, 0, false);
    PlanGrows(rows, SHIFTED, 1, false);
    PlanGrows(rows, SHIFTED, 2, false);
  }

  /** One round of the shifted items repairs one guid. */
  lemma {:induction false} ShiftedRound(first: string, second: string)
    requires (first == "a" || first == "x") && second == "b"
    ensures var s := State(None, TwoPosts(Plain(first, "u"), Plain(second, "v")));
            var rows := TwoRows(Plain(first, "u"), Plain(second, "v"));
            && PlanOf(None, rows, None, SHIFTED, false).newPosts == []
            && Round(s, rows, None, SHIFTED, false, [])
               == State(None, if first == "a" then TwoPosts(Plain("x", "u"), Plain("b", "v"))
                        else TwoPosts(Plain("x", "u"), Plain("a", "v")))
  {
    hide PlanOf;
    Letters();
    ShiftedPlan(first, second);
    var table := TwoPosts(Plain(first, "u"), Plain(second, "v"));
    var u := if first == "a" then Repair(1, "x") else Repair(2, "a");
    assert [u][..0] == [] && ApplyUpdates(table, [u]) == ApplyOne(table, u);
  }

  /** Guids that moved one post along: the first round hands the first post a new guid, and only then is the
      post its old guid now belongs to found by URL. The plan after two rounds is not empty. */
  lemma {:induction false} SharedPostNeedsMore()
    ensures var s := State(None, TwoPosts(Plain("a", "u"), Plain("b", "v")));
            var rows := TwoRows(Plain("a", "u"), Plain("b", "v"));
            var nextRows := TwoRows(Plain("x", "u"), Plain("b", "v"));
            var lastRows := TwoRows(Plain("x", "u"), Plain("a", "v"));
            && Keyed(s.table) && Lists(rows, s.table) && Distinct(SHIFTED) && !NotShared(s.table, SHIFTED)
            && PlanOf(None, rows, None, SHIFTED, false).newPosts == []
            && var next := Round(s, rows, None, SHIFTED, false, []);
            && Lists(nextRows, next.table) && PlanOf(None, nextRows, None, SHIFTED, false).newPosts == []
            && var last := Round(next, nextRows, None, SHIFTED, false, []);
            && Lists(lastRows, last.table) && PlanOf(last.image, lastRows, None, SHIFTED, false) != NOTHING
  {
    hide PlanOf, Round, Updates, NewPosts, ApplyUpdates, Insert;
    Letters();
    ShiftedRound("a", "b");
    ShiftedRound("x", "b");
    ShiftedPlan("x", "a");
    var table := TwoPosts(Plain("a", "u"), Plain("b", "v"));
    assert Matches(table, SHIFTED[0], 1) && Matches(table, SHIFTED[1], 1);
    RowsOfTwo(Plain("a", "u"), Plain("b", "v"));
    RowsOfTwo(Plain("x", "u"), Plain("b", "v"));
    RowsOfTwo(Plain("x", "u"), Plain("a", "v"));
  }

  lemma {:induction false} RowsOfTwo(first: Post, second: Post)
    ensures Lists(TwoRows(first, second), TwoPosts(first, second))
  {
    assert TwoRows(first, second)[0] == Row(1, first) && TwoRows(first, second)[1] == Row(2, second);
  }

  // ---------- which new posts are archive posts ----------

  lemma {:induction false} LessTotal(a: string, b: string)
    ensures a != b ==> (Less(a, b) <==> !Less(b, a))
    ensures a == b ==> !Less(a, b)
  {
    if a != "" && b != "" && a[0] == b[0] {
      LessTotal(a[1..], b[1..]);
      assert a == [a[0]] + a[1..] && b == [b[0]] + b[1..];
    }
  }

  lemma {:induction false} LessTransitive(a: string, b: string, c: string)
    requires Less(a, b) && Less(b, c)
    ensures Less(a, c)
  {
    if a != "" && a[0] == b[0] == c[0] {
      LessTransitive(a[1..], b[1..], c[1..]);
    }
  }

  /** Against a text that starts with one as long, that start decides unless it is the same. */
  lemma {:induction false} LessByStart(a: string, b: string, n: nat)
    requires n <= |a| && n <= |b|
    ensures Less(a, b) <==> Less(a[..n], b[..n]) || (a[..n] == b[..n] && Less(a[n..], b[n..]))
  {
    if n > 0 {
      LessByStart(a[1..], b[1..], n - 1);
      assert a[1..][..n - 1] == a[..n][1..] && b[1..][..n - 1] == b[..n][1..];
      assert a[1..][n - 1..] == a[n..] && b[1..][n - 1..] == b[n..];
      assert a[..n] == [a[0]] + a[..n][1..] && b[..n] == [b[0]] + b[..n][1..];
    } else {
      assert a[0..] == a && b[0..] == b;
    }
  }

  lemma {:induction false} DatePrefixOf(date: string, n: nat)
    requires n <= |date| && 'T' !in date[..n]
    ensures DatePrefix(date) == date[..n] + DatePrefix(date[n..])
  {
    if n > 0 {
      assert date[0] == date[..n][0];
      assert forall c :: c in date[1..][..n - 1] ==> c in date[..n];
      DatePrefixOf(date[1..], n - 1);
      assert date[1..][n - 1..] == date[n..] && date[..n] == [date[0]] + date[1..][..n - 1];
    } else {
      assert date[0..] == date;
    }
  }

  /** The least stored date is one of them, and none is less. */
  lemma {:induction false} OldestIsLeast(rows: seq<Row>)
    ensures Oldest(rows).None? ==> forall i :: 0 <= i < |rows| ==> rows[i].post.releaseDate.None?
    ensures Oldest(rows).Some? ==> exists i :: 0 <= i < |rows| && rows[i].post.releaseDate == Oldest(rows)
    ensures Oldest(rows).Some? ==> forall i :: 0 <= i < |rows| && rows[i].post.releaseDate.Some? ==>
              !Less(rows[i].post.releaseDate.value, Oldest(rows).value)
  {
    if rows != [] {
      var n := |rows| - 1;
      var init, date := rows[..n], rows[n].post.releaseDate;
      OldestIsLeast(init);
      var before := Oldest(init);
      if date.Some? {
        LessTotal(date.value, date.value);
        if before.Some? && Less(date.value, before.value) {
          forall i | 0 <= i < n && rows[i].post.releaseDate.Some?
            ensures !Less(rows[i].post.releaseDate.value, date.value)
          {
            assert init[i] == rows[i];
            if Less(rows[i].post.releaseDate.value, date.value) {
              LessTransitive(rows[i].post.releaseDate.value, date.value, before.value);
            }
          }
        }
      }
      if before.Some? && Oldest(rows) == before {
        var i :| 0 <= i < n && init[i].post.releaseDate == before;
        assert rows[i] == init[i];
      }
    }
  }

  /** A date of ten characters and what separates it from the time. */
  predicate DayThen(date: string, separator: char) {
    |date| > 10 && 'T' !in date[..10] && date[10] == separator
  }

  /** The release's day against the stored date's: strictly earlier, or the same where the stored date
      separates its time by something else than a `T`. */
  predicate DayBefore(release: string, stored: string) {
    && |release| > 10 && |stored| > 10
    && (Less(release[..10], stored[..10]) || (release[..10] == stored[..10] && stored[10] != 'T'))
  }

  lemma {:induction false} PrefixesByDay(release: string, stored: string, separator: char)
    requires DayThen(release, 'T') && DayThen(stored, separator)
    ensures Less(DatePrefix(release), DatePrefix(stored)) <==> DayBefore(release, stored)
  {
    var a, b := DatePrefix(release), DatePrefix(stored);
    DatePrefixOf(release, 10);
    DatePrefixOf(stored, 10);
    LessByStart(a, b, 10);
    assert a[..10] == release[..10] && b[..10] == stored[..10];
    assert a[10..] == DatePrefix(release[10..]) == "" && b[10..] == DatePrefix(stored[10..]);
    assert b[10..] == "" <==> stored[10] == 'T';
  }

  /** A new post is an archive post exactly when its day is before every stored post's. Where the database
      separates the time by a space, a post of the very day of the oldest stored one is one too. */
  lemma {:induction false} ArchiveByDay(rows: seq<Row>, release: string, separator: char)
    requires DayThen(release, 'T')
    requires exists i :: 0 <= i < |rows| && rows[i].post.releaseDate.Some?
    requires forall i :: 0 <= i < |rows| && rows[i].post.releaseDate.Some? ==>
               DayThen(rows[i].post.releaseDate.value, separator)
    ensures IsArchive(Oldest(rows), Some(release)) <==>
              forall i :: 0 <= i < |rows| && rows[i].post.releaseDate.Some? ==>
                DayBefore(release, rows[i].post.releaseDate.value)
  {
    OldestIsLeast(rows);
    var oldest := Oldest(rows).value;
    var k :| 0 <= k < |rows| && rows[k].post.releaseDate == Some(oldest);
    PrefixesByDay(release, oldest, separator);
    if DayBefore(release, oldest) {
      forall i | 0 <= i < |rows| && rows[i].post.releaseDate.Some?
        ensures DayBefore(release, rows[i].post.releaseDate.value)
      {
        var date := rows[i].post.releaseDate.value;
        LessByStart(date, oldest, 10);
        DayBeforeLater(release, oldest, date);
      }
    }
  }

  lemma {:induction false} DayBeforeLater(release: string, oldest: string, date: string)
    requires |release| > 10 && |oldest| > 10 && |date| > 10 && oldest[10] == date[10]
    requires DayBefore(release, oldest) && !Less(date[..10], oldest[..10])
    ensures DayBefore(release, date)
  {
    LessTotal(date[..10], oldest[..10]);
    if oldest[..10] != date[..10] && release[..10] != oldest[..10] {
      LessTransitive(release[..10], oldest[..10], date[..10]);
    }
  }
}
