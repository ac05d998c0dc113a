/** Feed normalisation in scripts/update_news.py: `extract_image_from_entry`,
    `parse_entry`, `fetch_news` and the feed list of `main`. */
module Feeds {
  import opened Wrappers
  import opened Text
  import opened News
  import opened Images

  datatype Tag = Tag(term: Option<string>)

  /** A feed entry as the feed parser hands it over; `None` is an absent key. */
  datatype FeedEntry = FeedEntry(
    title: Option<string>,
    link: Option<string>,
    summary: Option<string>,
    publishedParsed: Option<Timestamp>,
    updatedParsed: Option<Timestamp>,
    tags: Option<seq<Tag>>,
    mediaContent: Option<seq<Media>>,
    mediaThumbnail: Option<seq<Thumbnail>>,
    enclosures: Option<seq<Enclosure>>,
    content: Option<seq<ContentPart>>)

  /** One parsed feed: its channel title, if any, and its entries. */
  datatype ParsedFeed = ParsedFeed(title: Option<string>, entries: seq<FeedEntry>)

  /** The HTML searched for an `<img>`: the first content part's value when the
      entry has content, otherwise its summary. */
  function EntryHtml(e: FeedEntry): string {
    if e.content.Some? && e.content.value != [] then e.content.value[0].value.GetOr("")
    else e.summary.GetOr("")
  }

  /** `extract_image_from_entry`: the first of four sources that applies. */
  function ExtractImage(e: FeedEntry): (r: string)
    ensures (&& e.mediaContent.GetOr([]) == [] && e.mediaThumbnail.GetOr([]) == []
             && e.enclosures.GetOr([]) == [] && EntryHtml(e) == "") ==> r == ""
  {
    var media := e.mediaContent.GetOr([]);
    var i := FirstWhere(media, IsImageMedia);
    if i < |media| then media[i].url.GetOr("")
    else
      var thumbs := e.mediaThumbnail.GetOr([]);
      if thumbs != [] then thumbs[0].url.GetOr("")
      else
        var enclosures := e.enclosures.GetOr([]);
        var j := FirstWhere(enclosures, IsImageEnclosure);
        if j < |enclosures| then enclosures[j].href.GetOr("")
        else
          var html := EntryHtml(e);
          if html != "" then FirstImgSrc(html).GetOr("") else ""
  }

  predicate NoImageMedia(e: FeedEntry) {
    var media := e.mediaContent.GetOr([]);
    forall k :: 0 <= k < |media| ==> !IsImageMedia(media[k])
  }

  predicate NoImageEnclosure(e: FeedEntry) {
    var enclosures := e.enclosures.GetOr([]);
    forall k :: 0 <= k < |enclosures| ==> !IsImageEnclosure(enclosures[k])
  }

  /** The priority chain of `extract_image_from_entry`: the first image
      media_content, else the first thumbnail (even one without a url), else
      the first image enclosure, else the first `<img src>` of the HTML, else "". */
  lemma ImagePriority(e: FeedEntry)
    ensures var media := e.mediaContent.GetOr([]);
      forall i :: 0 <= i < |media| && IsImageMedia(media[i]) && (forall k :: 0 <= k < i ==> !IsImageMedia(media[k]))
        ==> ExtractImage(e) == media[i].url.GetOr("")
    ensures NoImageMedia(e) && e.mediaThumbnail.GetOr([]) != [] ==>
      ExtractImage(e) == e.mediaThumbnail.value[0].url.GetOr("")
    ensures var enclosures := e.enclosures.GetOr([]);
      NoImageMedia(e) && e.mediaThumbnail.GetOr([]) == [] ==>
      forall j :: 0 <= j < |enclosures| && IsImageEnclosure(enclosures[j])
                  && (forall k :: 0 <= k < j ==> !IsImageEnclosure(enclosures[k]))
        ==> ExtractImage(e) == enclosures[j].href.GetOr("")
    ensures NoImageMedia(e) && e.mediaThumbnail.GetOr([]) == [] && NoImageEnclosure(e) ==>
      ExtractImage(e) == FirstImgSrc(EntryHtml(e)).GetOr("")
  {
    var media := e.mediaContent.GetOr([]);
    var enclosures := e.enclosures.GetOr([]);
    var i := FirstWhere(media, IsImageMedia);
    var j := FirstWhere(enclosures, IsImageEnclosure);
    if EntryHtml(e) == "" {
      assert FirstImgSrc("") == None;
    }
  }

  /** The tag terms kept as categories: the non-empty ones, in order. */
  function Terms(tags: seq<Tag>): (r: seq<string>)
    ensures |r| <= |tags|
    ensures forall k :: 0 <= k < |r| ==> r[k] != ""
    ensures forall x :: x in r <==> exists k :: 0 <= k < |tags| && tags[k].term == Some(x) && x != ""
  {
    if tags == [] then []
    else
      var rest := Terms(tags[1..]);
      assert forall k :: 0 < k < |tags| ==> tags[k] == tags[1..][k - 1];
      if tags[0].term.Some? && tags[0].term.value != "" then [tags[0].term.value] + rest else rest
  }

  /** One tag contributes its term exactly when the term is present and not
      empty. */
  lemma TermsOne(tag: Tag)
    ensures Terms([tag]) == if tag.term.Some? && tag.term.value != "" then [tag.term.value] else []
  {
    assert [tag][1..] == [];
  }

  /** The terms of two tag lists one after the other are the terms of the
      first followed by the terms of the second: order and repeats are kept. */
  lemma {:induction false} TermsConcat(a: seq<Tag>, b: seq<Tag>)
    ensures Terms(a + b) == Terms(a) + Terms(b)
    decreases |a|
  {
    if a == [] {
      assert a + b == b;
    } else {
      assert (a + b)[0] == a[0];
      assert (a + b)[1..] == a[1..] + b;
      TermsConcat(a[1..], b);
    }
  }

  /** `parse_entry`: no item without a publication or update time; a time
      `datetime` rejects raises ValueError; otherwise the entry with its
      defaults ("Untitled", empty link and summary). */
  function ParseEntry(e: FeedEntry, source: string): (r: Result<Option<NewsItem>>)
    ensures e.publishedParsed.None? && e.updatedParsed.None? <==> r == Ok(None)
    ensures r.Err? ==> r.error == ValueError
    ensures var stamp := if e.publishedParsed.Some? then e.publishedParsed else e.updatedParsed;
      r.Err? <==> stamp.Some? && !ValidTimestamp(stamp.value)
    ensures r.Ok? && r.value.Some? ==>
      var item := r.value.value;
      && ValidTimestamp(item.published)
      && item.published == (if e.publishedParsed.Some? then e.publishedParsed.value else e.updatedParsed.value)
      && item.title == e.title.GetOr("Untitled")
      && item.link == e.link.GetOr("")
      && item.source == source
      && item.summary == e.summary.GetOr("")
      && item.categories == Terms(e.tags.GetOr([]))
      && item.image == ExtractImage(e)
  {
    var stamp := if e.publishedParsed.Some? then e.publishedParsed else e.updatedParsed;
    if stamp.None? then Ok(None)
    else if !ValidTimestamp(stamp.value) then Err(ValueError)
    else Ok(Some(NewsItem(e.title.GetOr("Untitled"), e.link.GetOr(""), stamp.value, source,
                          e.summary.GetOr(""), Terms(e.tags.GetOr([])), ExtractImage(e))))
  }

  /** Items newest first: no item is older than one after it. */
  predicate NewestFirst(s: seq<NewsItem>) {
    forall i, j :: 0 <= i < j < |s| ==> !Earlier(s[i].published, s[j].published)
  }

  /** Places `x` after the items strictly newer than it and before the rest. */
  function Insert(x: NewsItem, s: seq<NewsItem>): (r: seq<NewsItem>)
    ensures multiset(r) == multiset(s) + multiset{x}
  {
    if s == [] || !Earlier(x.published, s[0].published) then [x] + s
    else
      assert s == [s[0]] + s[1..];
      [s[0]] + Insert(x, s[1..])
  }

  /** No item of `s` is newer than `t`. */
  predicate NoneNewerThan(s: seq<NewsItem>, t: Timestamp) {
    forall k :: 0 <= k < |s| ==> !Earlier(t, s[k].published)
  }

  lemma {:induction false} InsertKeepsBound(x: NewsItem, s: seq<NewsItem>, t: Timestamp)
    requires NoneNewerThan(s, t) && !Earlier(t, x.published)
    ensures NoneNewerThan(Insert(x, s), t)
  {
    if s != [] && Earlier(x.published, s[0].published) {
      InsertKeepsBound(x, s[1..], t);
    }
  }

  lemma {:induction false} InsertKeepsOrder(x: NewsItem, s: seq<NewsItem>)
    requires NewestFirst(s)
    ensures NewestFirst(Insert(x, s))
  {
    if s == [] || !Earlier(x.published, s[0].published) {
      forall k | 0 <= k < |s|
        ensures !Earlier(x.published, s[k].published)
      {
        EarlierIsStrictTotalOrder(x.published, s[0].published, s[k].published);
        EarlierIsStrictTotalOrder(s[k].published, s[0].published, x.published);
        EarlierIsStrictTotalOrder(s[0].published, s[k].published, x.published);
        EarlierIsStrictTotalOrder(x.published, s[k].published, s[0].published);
      }
    } else {
      InsertKeepsOrder(x, s[1..]);
      EarlierIsStrictTotalOrder(x.published, s[0].published, x.published);
      InsertKeepsBound(x, s[1..], s[0].published);
    }
  }

  /** `items.sort(key=published, reverse=True)`, which is stable: an insertion sort. */
  function SortNewestFirst(s: seq<NewsItem>): (r: seq<NewsItem>)
    ensures multiset(r) == multiset(s)
    ensures NewestFirst(r)
  {
    if s == [] then []
    else
      assert s == [s[0]] + s[1..];
      InsertKeepsOrder(s[0], SortNewestFirst(s[1..]));
      Insert(s[0], SortNewestFirst(s[1..]))
  }

  /** The items published at moment `t`, in their order. */
  function PublishedAt(s: seq<NewsItem>, t: Timestamp): seq<NewsItem> {
    if s == [] then []
    else (if s[0].published == t then [s[0]] else []) + PublishedAt(s[1..], t)
  }

  lemma {:induction false} InsertPublishedAt(x: NewsItem, s: seq<NewsItem>, t: Timestamp)
    requires NewestFirst(s)
    ensures PublishedAt(Insert(x, s), t) == (if x.published == t then [x] else []) + PublishedAt(s, t)
  {
    if s == [] || !Earlier(x.published, s[0].published) {
      assert Insert(x, s) == [x] + s;
      assert ([x] + s)[1..] == s;
    } else {
      var rest := Insert(x, s[1..]);
      assert Insert(x, s) == [s[0]] + rest;
      assert ([s[0]] + rest)[1..] == rest;
      InsertPublishedAt(x, s[1..], t);
      assert x.published != s[0].published;
    }
  }

  /** The sort is stable: items with equal publication moments keep the
      order in which the feeds listed them. */
  lemma {:induction false} SortIsStable(s: seq<NewsItem>, t: Timestamp)
    ensures PublishedAt(SortNewestFirst(s), t) == PublishedAt(s, t)
  {
    if s != [] {
      SortIsStable(s[1..], t);
      InsertPublishedAt(s[0], SortNewestFirst(s[1..]), t);
    }
  }

  /** The items `fetch_news` keeps from one feed's entries, in entry order:
      parsed items with a non-empty link; the first ValueError aborts. */
  function KeptItems(entries: seq<FeedEntry>, source: string): (r: Result<seq<NewsItem>>)
    ensures r.Ok? ==> forall k :: 0 <= k < |r.value| ==>
                        r.value[k].link != "" && ValidTimestamp(r.value[k].published)
    decreases |entries|
  {
    if entries == [] then Ok([])
    else
      match KeptItems(entries[..|entries| - 1], source)
      case Err(e) => Err(e)
      case Ok(items) =>
        match ParseEntry(entries[|entries| - 1], source)
        case Err(e) => Err(e)
        case Ok(None) => Ok(items)
        case Ok(Some(item)) => if item.link != "" then Ok(items + [item]) else Ok(items)
  }

  /** The source label of a feed: its channel title, else its URL. */
  function SourceTitle(url: string, parsed: ParsedFeed): string {
    parsed.title.GetOr(url)
  }

  /** The items of all feeds, feed after feed, before sorting. */
  function Gathered(feeds: seq<string>, parse: string -> ParsedFeed): (r: Result<seq<NewsItem>>)
    ensures r.Ok? ==> forall k :: 0 <= k < |r.value| ==>
                        r.value[k].link != "" && ValidTimestamp(r.value[k].published)
    decreases |feeds|
  {
    if feeds == [] then Ok([])
    else
      var url := feeds[|feeds| - 1];
      match Gathered(feeds[..|feeds| - 1], parse)
      case Err(e) => Err(e)
      case Ok(items) =>
        match KeptItems(parse(url).entries, SourceTitle(url, parse(url)))
        case Err(e) => Err(e)
        case Ok(more) => Ok(items + more)
  }

  /** What `fetch_news` returns: the gathered items sorted newest first. */
  function FetchResult(feeds: seq<string>, parse: string -> ParsedFeed): Result<seq<NewsItem>> {
    match Gathered(feeds, parse)
    case Ok(items) => Ok(SortNewestFirst(items))
    case Err(e) => Err(e)
  }

  lemma {:induction false} KeptItemsErrorSticks(entries: seq<FeedEntry>, source: string, j: nat)
    requires j <= |entries| && KeptItems(entries[..j], source).Err?
    ensures KeptItems(entries, source) == KeptItems(entries[..j], source)
    decreases |entries| - j
  {
    if j < |entries| {
      assert entries[..j + 1][..j] == entries[..j];
      KeptItemsErrorSticks(entries, source, j + 1);
    } else {
      assert entries[..j] == entries;
    }
  }

  lemma {:induction false} GatheredErrorSticks(feeds: seq<string>, parse: string -> ParsedFeed, i: nat)
    requires i <= |feeds| && Gathered(feeds[..i], parse).Err?
    ensures Gathered(feeds, parse) == Gathered(feeds[..i], parse)
    decreases |feeds| - i
  {
    if i < |feeds| {
      assert feeds[..i + 1][..i] == feeds[..i];
      GatheredErrorSticks(feeds, parse, i + 1);
    } else {
      assert feeds[..i] == feeds;
    }
  }

  /** `fetch_news`: parses every feed in turn, appends the kept items, then
      sorts them newest first; the result is a permutation of the kept items,
      each with a link. */
  method FetchNews(feeds: seq<string>, parse: string -> ParsedFeed) returns (r: Result<seq<NewsItem>>)
    ensures r == FetchResult(feeds, parse)
    ensures r.Ok? ==> NewestFirst(r.value) && multiset(r.value) == multiset(Gathered(feeds, parse).value)
    ensures r.Ok? ==> forall k :: 0 <= k < |r.value| ==> r.value[k].link != ""
  {
    var items: seq<NewsItem> := [];
    var i := 0;
    while i < |feeds|
      invariant 0 <= i <= |feeds|
      invariant Gathered(feeds[..i], parse) == Ok(items)
    {
      GatheredExtend(feeds, i, parse, items);
      var more := FetchFeed(feeds[i], parse);
      if more.Err? {
        GatheredErrorSticks(feeds, parse, i + 1);
        return Err(more.error);
      }
      items := items + more.value;
      i := i + 1;
    }
    assert feeds[..i] == feeds;
    var sorted := SortNewestFirst(items);
    assert forall k :: 0 <= k < |sorted| ==> sorted[k] in multiset(items);
    r := Ok(sorted);
  }

  /** The inner loop of `fetch_news` for one feed: its entries in order,
      those without a date skipped, those without a link dropped. */
  method FetchFeed(url: string, parse: string -> ParsedFeed) returns (r: Result<seq<NewsItem>>)
    ensures r == KeptItems(parse(url).entries, SourceTitle(url, parse(url)))
  {
    var parsed := parse(url);
    var source := parsed.title.GetOr(url);
    var items: seq<NewsItem> := [];
    var j := 0;
    while j < |parsed.entries|
      invariant 0 <= j <= |parsed.entries|
      invariant KeptItems(parsed.entries[..j], source) == Ok(items)
    {
      KeptItemsExtend(parsed.entries, j, source, items);
      var item := ParseEntry(parsed.entries[j], source);
      if item.Err? {
        KeptItemsErrorSticks(parsed.entries, source, j + 1);
        return Err(item.error);
      }
      if item.value.Some? && item.value.value.link != "" {
        items := items + [item.value.value];
      }
      j := j + 1;
    }
    assert parsed.entries[..j] == parsed.entries;
    r := Ok(items);
  }

  /** One more entry in the loop of `fetch_news`. */
  lemma KeptItemsExtend(entries: seq<FeedEntry>, j: nat, source: string, items: seq<NewsItem>)
    requires j < |entries| && KeptItems(entries[..j], source) == Ok(items)
    ensures var p := ParseEntry(entries[j], source);
      && (p.Err? ==> KeptItems(entries[..j + 1], source) == Err(p.error))
      && (p.Ok? ==> KeptItems(entries[..j + 1], source) ==
                    Ok(if p.value.Some? && p.value.value.link != "" then items + [p.value.value] else items))
  {
    var e := entries[..j + 1];
    assert e[..|e| - 1] == entries[..j];
    assert e[|e| - 1] == entries[j];
  }

  /** One more feed in the loop of `fetch_news`. */
  lemma GatheredExtend(feeds: seq<string>, i: nat, parse: string -> ParsedFeed, items: seq<NewsItem>)
    requires i < |feeds| && Gathered(feeds[..i], parse) == Ok(items)
    ensures var kept := KeptItems(parse(feeds[i]).entries, SourceTitle(feeds[i], parse(feeds[i])));
      && (kept.Err? ==> Gathered(feeds[..i + 1], parse) == Err(kept.error))
      && (kept.Ok? ==> Gathered(feeds[..i + 1], parse) == Ok(items + kept.value))
  {
    var f := feeds[..i + 1];
    assert f[..|f| - 1] == feeds[..i];
    assert f[|f| - 1] == feeds[i];
  }

  const DefaultFeeds := [
    "https://www.darkreading.com/rss.xml",
    "https://feeds.feedburner.com/TheHackersNews",
    "https://www.bleepingcomputer.com/feed/",
    "https://www.cisa.gov/news-events/alerts.xml",
    "https://www.scmagazine.com/home/feed/"]

  /** Every part, stripped. */
  function Strips(parts: seq<string>): (r: seq<string>)
    ensures |r| == |parts| && forall j :: 0 <= j < |parts| ==> r[j] == Strip(parts[j])
  {
    if parts == [] then [] else [Strip(parts[0])] + Strips(parts[1..])
  }

  /** Stripping adds no character to any part. */
  lemma {:induction false} StripsKeepOut(parts: seq<string>, c: char)
    requires forall j :: 0 <= j < |parts| ==> c !in parts[j]
    ensures forall f :: f in Strips(parts) ==> c !in f
  {
    if parts != [] {
      StripKeepsOut(parts[0], c);
      StripsKeepOut(parts[1..], c);
    }
  }

  /** The stripped, non-empty parts of a comma-separated list, in order. */
  function CleanFeeds(parts: seq<string>): (r: seq<string>)
    ensures |r| <= |parts|
  {
    if parts == [] then []
    else
      var rest := CleanFeeds(parts[1..]);
      var feed := Strip(parts[0]);
      if feed != "" then [feed] + rest else rest
  }

  /** One feed is kept exactly when it is a non-empty stripped part. */
  lemma {:induction false} CleanFeedsMember(parts: seq<string>, f: string)
    ensures f in CleanFeeds(parts) <==> f != "" && f in Strips(parts)
  {
    if parts != [] {
      var rest := CleanFeeds(parts[1..]);
      var feed := Strip(parts[0]);
      CleanFeedsMember(parts[1..], f);
      assert Strips(parts) == [feed] + Strips(parts[1..]);
      assert f in CleanFeeds(parts) <==> (feed != "" && f == feed) || f in rest;
    }
  }

  /** The cleaned feeds are exactly the non-empty stripped parts: each one is
      such a part, and each such part is kept. */
  lemma CleanFeedsKeep(parts: seq<string>)
    ensures forall f :: f in CleanFeeds(parts) ==> f != "" && IsStripped(f) && f in Strips(parts)
    ensures forall f :: f != "" && f in Strips(parts) ==> f in CleanFeeds(parts)
  {
    forall f
      ensures f in CleanFeeds(parts) <==> f != "" && f in Strips(parts)
      ensures f in Strips(parts) ==> IsStripped(f)
    {
      CleanFeedsMember(parts, f);
    }
  }

  /** A feed is kept exactly when some part strips to it and it is not empty. */
  lemma CleanFeedsExact(parts: seq<string>, f: string)
    ensures f in CleanFeeds(parts) <==> f != "" && exists j :: 0 <= j < |parts| && Strip(parts[j]) == f
  {
    CleanFeedsKeep(parts);
    var stripped := Strips(parts);
    if f in stripped {
      var j :| 0 <= j < |stripped| && stripped[j] == f;
      assert Strip(parts[j]) == f;
    }
    if exists j :: 0 <= j < |parts| && Strip(parts[j]) == f {
      var j :| 0 <= j < |parts| && Strip(parts[j]) == f;
      assert stripped[j] == f;
    }
  }

  /** The cleaned feeds keep the order of the parts they come from: the
      first kept feed comes from the first part that does not strip to "". */
  lemma {:induction false} CleanFeedsFirst(parts: seq<string>, i: nat)
    requires i < |parts| && Strip(parts[i]) != ""
    requires forall j :: 0 <= j < i ==> Strip(parts[j]) == ""
    ensures CleanFeeds(parts) == [Strip(parts[i])] + CleanFeeds(parts[i + 1..])
    decreases i
  {
    if i > 0 {
      assert parts[1..][i - 1..] == parts[i..] && parts[1..][i..] == parts[i + 1..];
      CleanFeedsFirst(parts[1..], i - 1);
    }
  }

  /** The feed list of `main`: the default feeds when the variable is unset or
      empty, otherwise its comma-separated parts, stripped, empty ones dropped
      (so a value of only commas and spaces gives no feeds at all). */
  function FeedList(env: Option<string>): (feeds: seq<string>)
    ensures env.None? || env == Some("") ==> feeds == DefaultFeeds
    ensures env.Some? && env.value != "" ==> feeds == CleanFeeds(Split(env.value, ','))
    ensures env.Some? && env.value != "" ==>
      forall k :: 0 <= k < |feeds| ==> feeds[k] != "" && IsStripped(feeds[k]) && ',' !in feeds[k]
  {
    if env.None? || env.value == "" then DefaultFeeds
    else
      var parts := Split(env.value, ',');
      var feeds := CleanFeeds(parts);
      SplitNoSep(env.value, ',');
      StripsKeepOut(parts, ',');
      CleanFeedsKeep(parts);
      assert forall k :: 0 <= k < |feeds| ==> feeds[k] in feeds;
      feeds
  }
}
