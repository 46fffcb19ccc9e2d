/** The posts a feed refresh adds, field by field, stated on the stored posts and the fetched items. */
module FeedPosts {
  import opened Basics
  import opened FeedRefresh

  /** No stored post has the item's guid or its URL. */
  ghost predicate Unstored(rows: seq<Row>, item: Entry) {
    forall i :: 0 <= i < |rows| ==> rows[i].post.guid != item.guid && rows[i].post.url != item.url
  }

  /** The date is stored, and no stored one is less. */
  ghost predicate IsLeastDate(rows: seq<Row>, date: string) {
    && (exists i :: 0 <= i < |rows| && rows[i].post.releaseDate == Some(date))
    && (forall i :: 0 <= i < |rows| && rows[i].post.releaseDate.Some? ==> !Less(rows[i].post.releaseDate.value, date))
  }

  /** The item's date is before the least stored one, as texts up to their first `T`. */
  ghost predicate IsOld(rows: seq<Row>, release: Option<string>) {
    release.Some? && exists date :: IsLeastDate(rows, date) && Less(DatePrefix(release.value), DatePrefix(date))
  }

  /** Not yet processed, with all the item says, and the feed's artwork where it has none. */
  ghost predicate IsItem(post: Post, item: Entry, feedImage: Option<string>) {
    && post.guid == item.guid && post.url == item.url && post.title == item.title
    && post.description == Some(item.description) && post.audioPath == None
    && post.releaseDate == item.releaseDate && post.duration == item.duration
    && post.imageUrl == if item.imageUrl.Some? then item.imageUrl else feedImage
  }

  ghost predicate IsNewPost(post: Post, rows: seq<Row>, item: Entry, feedImage: Option<string>, autoWhitelist: bool) {
    && IsItem(post, item, feedImage) && Unstored(rows, item)
    && (post.whitelisted <==> autoWhitelist && !IsOld(rows, item.releaseDate))
  }

  /** The posts stand for the items at the given places, which are those that are not stored, in their order. */
  ghost predicate AreNewPosts(posts: seq<Post>, from: seq<nat>, rows: seq<Row>, items: seq<Entry>,
                              feedImage: Option<string>, autoWhitelist: bool)
  {
    && |from| == |posts|
    && (forall j :: 0 <= j < |from| ==>
          from[j] < |items| && IsNewPost(posts[j], rows, items[from[j]], feedImage, autoWhitelist))
    && (forall i, j :: 0 <= i < j < |from| ==> from[i] < from[j])
    && (forall k :: 0 <= k < |items| && Unstored(rows, items[k]) ==> k in from)
  }

  lemma {:induction false} MatchesNone(rows: seq<Row>, e: Entry)
    ensures Match(rows, e).None? <==> Unstored(rows, e)
  {
    ByGuidFinds(rows, e.guid);
    ByUrlFinds(rows, e.url);
    if e.guid in ByGuid(rows) {
      var i :| 0 <= i < |rows| && rows[i] == ByGuid(rows)[e.guid];
    } else if e.url in ByUrl(rows) {
      var i :| 0 <= i < |rows| && rows[i] == ByUrl(rows)[e.url];
    }
  }

  lemma {:induction false} OldIsArchive(rows: seq<Row>, release: Option<string>)
    ensures IsArchive(Oldest(rows), release) <==> IsOld(rows, release)
  {
    OldestIsLeast(rows);
    if Oldest(rows).Some? {
      assert IsLeastDate(rows, Oldest(rows).value);
    }
    forall date | IsLeastDate(rows, date)
      ensures Oldest(rows) == Some(date)
    {
      LeastIsOne(rows, date, Oldest(rows).value);
    }
  }

  lemma {:induction false} LeastIsOne(rows: seq<Row>, a: string, b: string)
    requires IsLeastDate(rows, a) && IsLeastDate(rows, b)
    ensures a == b
  {
    LessTotal(a, b);
  }

  lemma {:induction false} OneNewPost(rows: seq<Row>, item: Entry, feedImage: Option<string>, autoWhitelist: bool)
    requires Match(rows, WithFallback(item, feedImage)).None?
    ensures IsNewPost(NewPost(WithFallback(item, feedImage), Oldest(rows), autoWhitelist), rows, item, feedImage,
                      autoWhitelist)
  {
    hide IsArchive, IsOld, Oldest;
    MatchesNone(rows, WithFallback(item, feedImage));
    OldIsArchive(rows, item.releaseDate);
  }

  /** One more item adds its post, or is stored already. */
  lemma {:induction false} NewPostsGrow(posts: seq<Post>, from: seq<nat>, rows: seq<Row>, items: seq<Entry>,
                                        last: Entry, post: Post, feedImage: Option<string>, autoWhitelist: bool)
    requires AreNewPosts(posts, from, rows, items, feedImage, autoWhitelist)
    ensures !Unstored(rows, last) ==> AreNewPosts(posts, from, rows, items + [last], feedImage, autoWhitelist)
    ensures IsNewPost(post, rows, last, feedImage, autoWhitelist) ==>
              AreNewPosts(posts + [post], from + [|items|], rows, items + [last], feedImage, autoWhitelist)
  {
    hide IsNewPost, Unstored;
    assert forall k :: k in from ==> k in from + [|items|];
    assert (from + [|items|])[|from|] == |items|;
  }

  lemma {:induction false} NewPostsOf(rows: seq<Row>, items: seq<Entry>, feedImage: Option<string>, autoWhitelist: bool)
    returns (from: seq<nat>)
    ensures AreNewPosts(NewPosts(rows, Entries(items, feedImage), autoWhitelist), from, rows, items, feedImage,
                        autoWhitelist)
  {
    hide IsNewPost, Oldest, NewPost, Match, Unstored;
    if items == [] {
      from := [];
    } else {
      hide AreNewPosts;
      var n := |items| - 1;
      var init, last, entries := items[..n], items[n], Entries(items, feedImage);
      from := NewPostsOf(rows, init, feedImage, autoWhitelist);
      assert entries[..n] == Entries(init, feedImage) && items == init + [last];
      var posts, post := NewPosts(rows, Entries(init, feedImage), autoWhitelist),
                         NewPost(entries[n], Oldest(rows), autoWhitelist);
      NewPostsGrow(posts, from, rows, init, last, post, feedImage, autoWhitelist);
      MatchesLast(rows, last, feedImage);
      if Match(rows, entries[n]).None? {
        OneNewPost(rows, last, feedImage, autoWhitelist);
        from := from + [n];
      }
    }
  }

  lemma {:induction false} MatchesLast(rows: seq<Row>, item: Entry, feedImage: Option<string>)
    ensures Match(rows, WithFallback(item, feedImage)).None? <==> Unstored(rows, item)
  {
    MatchesNone(rows, WithFallback(item, feedImage));
  }

  /** A plan adds exactly the items that are not stored, in their order, with all their fields. A post is whitelisted
      if and only if new posts are to be and it is not older than every stored one. */
  lemma {:induction false} PlannedPosts(feedImage: Option<string>, rows: seq<Row>, channelImage: Option<string>,
                                        items: seq<Entry>, autoWhitelist: bool) returns (from: seq<nat>)
    ensures AreNewPosts(PlanOf(feedImage, rows, channelImage, items, autoWhitelist).newPosts, from, rows, items,
                        feedImage, autoWhitelist)
  {
    hide AreNewPosts, NewPosts;
    from := NewPostsOf(rows, items, feedImage, autoWhitelist);
  }

  /** The rows a round adds are those posts. */
  lemma {:induction false} RoundAdds(s: State, rows: seq<Row>, channelImage: Option<string>, items: seq<Entry>,
                                     autoWhitelist: bool, ids: seq<int>) returns (posts: seq<Post>, from: seq<nat>)
    requires Ready(s, rows, channelImage, items, autoWhitelist, ids)
    ensures var next := Round(s, rows, channelImage, items, autoWhitelist, ids).table;
            && (forall id :: id in next <==> id in s.table || id in ids)
            && |posts| == |ids| && (forall j :: 0 <= j < |ids| ==> ids[j] in next && next[ids[j]] == posts[j])
            && AreNewPosts(posts, from, rows, items, s.image, autoWhitelist)
  {
    hide AreNewPosts, NewPosts, Updates, Keyed, Lists, Insert, ApplyUpdates;
    from := PlannedPosts(s.image, rows, channelImage, items, autoWhitelist);
    posts := PlanOf(s.image, rows, channelImage, items, autoWhitelist).newPosts;
    var entries := Entries(items, s.image);
    RoundIsRefresh(s, rows, channelImage, items, autoWhitelist, ids);
    EntriesDistinct(items, s.image);
    var next := Round(s, rows, channelImage, items, autoWhitelist, ids).table;
    forall id
      ensures id in next <==> id in s.table || id in ids
    {
      RefreshedIds(rows, s.table, entries, autoWhitelist, ids, id);
    }
    forall j: nat | j < |ids|
      ensures ids[j] in next && next[ids[j]] == posts[j]
    {
      InsertedRow(rows, s.table, entries, autoWhitelist, ids, j);
    }
  }

  lemma {:induction false} EntriesDistinct(items: seq<Entry>, image: Option<string>)
    requires Distinct(items)
    ensures Distinct(Entries(items, image))
  {
  }

  /** The archive rule by day, for the forms of date the feed and the database use: the item's day is before every
      stored one, or the same where the database sets the time off otherwise than by a `T`. */
  lemma {:induction false} OldByDay(rows: seq<Row>, release: string, separator: char)
    requires DayThen(release, 'T')
    requires forall i :: 0 <= i < |rows| && rows[i].post.releaseDate.Some? ==>
               DayThen(rows[i].post.releaseDate.value, separator)
    ensures IsOld(rows, Some(release)) <==>
              && (exists i :: 0 <= i < |rows| && rows[i].post.releaseDate.Some?)
              && (forall i :: 0 <= i < |rows| && rows[i].post.releaseDate.Some? ==>
                    DayBefore(release, rows[i].post.releaseDate.value))
  {
    hide DayThen, DayBefore, IsOld, Oldest, IsArchive;
    OldIsArchive(rows, Some(release));
    if exists i :: 0 <= i < |rows| && rows[i].post.releaseDate.Some? {
      ArchiveByDay(rows, release, separator);
    } else {
      NothingIsOld(rows, release);
    }
  }

  lemma {:induction false} NothingIsOld(rows: seq<Row>, release: string)
    requires forall i :: 0 <= i < |rows| ==> rows[i].post.releaseDate.None?
    ensures !IsOld(rows, Some(release))
  {
  }
}
