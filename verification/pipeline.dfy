/** `summarise_news` and `main` of scripts/update_news.py. */
module Pipeline {
  import opened Wrappers
  import opened Text
  import opened News
  import opened Cache
  import opened Summary
  import opened Briefing
  import opened Feeds

  /** The record for `link`, when it is there and not an empty object. */
  predicate Hit(m: map<string, Entry>, link: string) {
    link in m && IsTruthy(m[link])
  }

  /** A cache hit copies summary, categories and image onto the item: a
      missing summary becomes "", missing categories [], and a missing image
      keeps the item's own. */
  function FromCache(item: NewsItem, e: Entry): (r: NewsItem)
    ensures r.link == item.link && r.title == item.title && r.published == item.published
    ensures r.source == item.source
    ensures e.summary.Some? ==> r.summary == e.summary.value
    ensures e.summary.None? ==> r.summary == ""
    ensures e.categories.Some? ==> r.categories == e.categories.value
    ensures e.categories.None? ==> r.categories == []
    ensures e.image.Some? ==> r.image == e.image.value
    ensures e.image.None? ==> r.image == item.image
  {
    item.(summary := e.summary.GetOr(""), categories := e.categories.GetOr([]), image := e.image.GetOr(item.image))
  }

  /** One turn of the loop of `summarise_news`: on a hit the cached fields, on a
      miss a fresh summary that is also written to the cache. */
  function Step(item: NewsItem, m: map<string, Entry>, summariser: Summariser): (r: Result<(NewsItem, map<string, Entry>)>)
    ensures r.Err? <==> !Hit(m, item.link) && summariser.Online? && summariser.respond(item).Raised?
  {
    if Hit(m, item.link) then Ok((FromCache(item, m[item.link]), m))
    else
      match Summarise(item, summariser)
      case Err(e) => Err(e)
      case Ok(text) =>
        var updated := item.(summary := text);
        Ok((updated, m[item.link := EntryOf(updated)]))
  }

  /** The items and the cache after `summarise_news` has handled `items` in order. */
  function Pass(items: seq<NewsItem>, m: map<string, Entry>, summariser: Summariser): (r: Result<(seq<NewsItem>, map<string, Entry>)>)
    ensures summariser.Offline? ==> r.Ok?
    decreases |items|
  {
    if items == [] then Ok(([], m))
    else
      match Pass(items[..|items| - 1], m, summariser)
      case Err(e) => Err(e)
      case Ok((done, m')) =>
        match Step(items[|items| - 1], m', summariser)
        case Err(e) => Err(e)
        case Ok((item, m'')) => Ok((done + [item], m''))
  }

  /** Every non-empty record of `m` is still in `m'`, unchanged. */
  predicate KeepsRecords(m: map<string, Entry>, m': map<string, Entry>) {
    forall l :: l in m && IsTruthy(m[l]) ==> l in m' && m'[l] == m[l]
  }

  /** The results are the items in order, each keeping its own link, title,
      publication moment and source. */
  predicate SameItems(items: seq<NewsItem>, res: seq<NewsItem>) {
    && |res| == |items|
    && forall k :: 0 <= k < |items| ==>
         && res[k].link == items[k].link && res[k].title == items[k].title
         && res[k].published == items[k].published && res[k].source == items[k].source
  }

  function Links(items: seq<NewsItem>): set<string> {
    set k | 0 <= k < |items| :: items[k].link
  }

  /** A step keeps the item's identity: link, title, date and source. */
  lemma StepShape(item: NewsItem, m: map<string, Entry>, s: Summariser)
    requires Step(item, m, s).Ok?
    ensures var item' := Step(item, m, s).value.0;
      && item'.link == item.link && item'.title == item.title
      && item'.published == item.published && item'.source == item.source
  {
  }

  /** A step leaves a non-empty record for its link, overwrites no non-empty
      record and adds no key but its own link; a hit leaves the cache as it
      is, and a miss writes the record of the summarised item. */
  lemma StepRecords(item: NewsItem, m: map<string, Entry>, s: Summariser)
    requires Step(item, m, s).Ok?
    ensures var m' := Step(item, m, s).value.1;
      Hit(m', item.link) && KeepsRecords(m, m') && m'.Keys == m.Keys + {item.link}
    ensures Hit(m, item.link) ==> Step(item, m, s).value.1 == m
    ensures !Hit(m, item.link) ==>
      Step(item, m, s).value.1 == m[item.link := EntryOf(Step(item, m, s).value.0)]
  {
    if !Hit(m, item.link) {
      var m' := Step(item, m, s).value.1;
      assert m' == m[item.link := m'[item.link]];
    }
  }

  /** A non-empty pass is the pass over all but the last item, then one step. */
  lemma PassUnfold(items: seq<NewsItem>, m: map<string, Entry>, s: Summariser)
    requires items != [] && Pass(items, m, s).Ok?
    ensures var prefix := items[..|items| - 1];
      && Pass(prefix, m, s).Ok?
      && Step(items[|items| - 1], Pass(prefix, m, s).value.1, s).Ok?
      && Pass(items, m, s).value.0 == Pass(prefix, m, s).value.0 + [Step(items[|items| - 1], Pass(prefix, m, s).value.1, s).value.0]
      && Pass(items, m, s).value.1 == Step(items[|items| - 1], Pass(prefix, m, s).value.1, s).value.1
  {
  }

  /** The shape of a finished pass: the same items in the same order with
      their own links, titles, dates and sources; a non-empty record for every
      link; no record that existed before overwritten; no other key added. */
  lemma {:induction false} PassShape(items: seq<NewsItem>, m: map<string, Entry>, summariser: Summariser)
    requires Pass(items, m, summariser).Ok?
    ensures SameItems(items, Pass(items, m, summariser).value.0)
    decreases |items|
  {
    if items != [] {
      var prefix := items[..|items| - 1];
      PassUnfold(items, m, summariser);
      PassShape(prefix, m, summariser);
      var done := Pass(prefix, m, summariser).value.0;
      var m1 := Pass(prefix, m, summariser).value.1;
      var last := items[|items| - 1];
      StepShape(last, m1, summariser);
      var res := Pass(items, m, summariser).value.0;
      assert res == done + [Step(last, m1, summariser).value.0];
      forall k | 0 <= k < |items|
        ensures res[k].link == items[k].link && res[k].title == items[k].title
        ensures res[k].published == items[k].published && res[k].source == items[k].source
      {
        if k < |prefix| {
          assert res[k] == done[k] && prefix[k] == items[k];
          assert done[k].link == prefix[k].link;
        } else {
          assert res[k] == Step(last, m1, summariser).value.0;
        }
      }
    }
  }

  /** A finished pass overwrites no non-empty record that was there before. */
  lemma {:induction false} PassKeepsRecords(items: seq<NewsItem>, m: map<string, Entry>, summariser: Summariser)
    requires Pass(items, m, summariser).Ok?
    ensures KeepsRecords(m, Pass(items, m, summariser).value.1)
    decreases |items|
  {
    if items != [] {
      var prefix := items[..|items| - 1];
      PassUnfold(items, m, summariser);
      PassKeepsRecords(prefix, m, summariser);
      var m1 := Pass(prefix, m, summariser).value.1;
      StepRecords(items[|items| - 1], m1, summariser);
      KeepsRecordsTransitive(m, m1, Pass(items, m, summariser).value.1);
    }
  }

  /** After a finished pass every item's link has a non-empty record. */
  lemma PassCachesAll(items: seq<NewsItem>, m: map<string, Entry>, summariser: Summariser)
    requires Pass(items, m, summariser).Ok?
    ensures forall k :: 0 <= k < |items| ==> Hit(Pass(items, m, summariser).value.1, items[k].link)
  {
    forall k | 0 <= k < |items|
      ensures Hit(Pass(items, m, summariser).value.1, items[k].link)
    {
      PassCaches(items, m, summariser, k);
    }
  }

  lemma {:induction false} PassCaches(items: seq<NewsItem>, m: map<string, Entry>, summariser: Summariser, k: nat)
    requires Pass(items, m, summariser).Ok? && k < |items|
    ensures Hit(Pass(items, m, summariser).value.1, items[k].link)
    decreases |items|
  {
    var prefix := items[..|items| - 1];
    PassUnfold(items, m, summariser);
    var m1 := Pass(prefix, m, summariser).value.1;
    var m' := Pass(items, m, summariser).value.1;
    StepRecords(items[|items| - 1], m1, summariser);
    assert m' == Step(items[|items| - 1], m1, summariser).value.1;
    if k < |items| - 1 {
      PassCaches(prefix, m, summariser, k);
      assert prefix[k] == items[k];
      HitKept(m1, m', items[k].link);
    } else {
      assert k == |items| - 1;
    }
  }

  /** A finished pass adds exactly the items' links to the cache's keys. */
  lemma {:induction false} PassKeys(items: seq<NewsItem>, m: map<string, Entry>, summariser: Summariser)
    requires Pass(items, m, summariser).Ok?
    ensures Pass(items, m, summariser).value.1.Keys == m.Keys + Links(items)
    decreases |items|
  {
    if items != [] {
      var prefix := items[..|items| - 1];
      var last := items[|items| - 1];
      PassUnfold(items, m, summariser);
      PassKeys(prefix, m, summariser);
      StepRecords(last, Pass(prefix, m, summariser).value.1, summariser);
      LinksSnoc(items);
    }
  }

  lemma LinksSnoc(items: seq<NewsItem>)
    requires items != []
    ensures Links(items) == Links(items[..|items| - 1]) + {items[|items| - 1].link}
  {
    var prefix := items[..|items| - 1];
    forall l | l in Links(items) ensures l in Links(prefix) + {items[|items| - 1].link} {
      var k :| 0 <= k < |items| && items[k].link == l;
      if k < |prefix| {
        assert prefix[k] == items[k];
      }
    }
    forall l | l in Links(prefix) ensures l in Links(items) {
      var k :| 0 <= k < |prefix| && prefix[k].link == l;
      assert items[k] == prefix[k];
    }
  }

  /** Replaying a finished pass against a cache that holds its final records
      consults no summariser, reproduces the same items and changes nothing. */
  lemma {:induction false} PassReplays(items: seq<NewsItem>, m: map<string, Entry>, s: Summariser,
                                       other: Summariser, m2: map<string, Entry>)
    requires Pass(items, m, s).Ok?
    requires KeepsRecords(Pass(items, m, s).value.1, m2)
    ensures Pass(items, m2, other) == Ok((Pass(items, m, s).value.0, m2))
    decreases |items|
  {
    if items != [] {
      var last := items[|items| - 1];
      var prefix := items[..|items| - 1];
      PassUnfold(items, m, s);
      var m1 := Pass(prefix, m, s).value.1;
      var (x, m') := Step(last, m1, s).value;
      StepRecords(last, m1, s);
      StepCaches(last, m1, s);
      KeepsRecordsTransitive(m1, m', m2);
      PassReplays(prefix, m, s, other, m2);
      assert Step(last, m2, other) == Ok((x, m2));
    }
  }

  /** After a step, the item's own record reproduces the item it produced. */
  lemma StepCaches(item: NewsItem, m: map<string, Entry>, s: Summariser)
    requires Step(item, m, s).Ok?
    ensures var (x, m') := Step(item, m, s).value;
      Hit(m', item.link) && FromCache(item, m'[item.link]) == x
  {
  }

  lemma HitKept(m: map<string, Entry>, m': map<string, Entry>, link: string)
    requires KeepsRecords(m, m') && Hit(m, link)
    ensures Hit(m', link) && m'[link] == m[link]
  {
  }

  lemma KeepsRecordsTransitive(a: map<string, Entry>, b: map<string, Entry>, c: map<string, Entry>)
    requires KeepsRecords(a, b) && KeepsRecords(b, c)
    ensures KeepsRecords(a, c)
  {
  }

  /** Idempotence: a second pass over the same items, with any summariser,
      leaves the cache as the first pass left it and yields the same items. */
  lemma SecondPassChangesNothing(items: seq<NewsItem>, m: map<string, Entry>, s: Summariser, other: Summariser)
    requires Pass(items, m, s).Ok?
    ensures Pass(items, Pass(items, m, s).value.1, other) == Pass(items, m, s)
  {
    PassReplays(items, m, s, other, Pass(items, m, s).value.1);
  }

  /** `summarise_news`: walks the items in order, takes the cached fields on a
      hit and summarises and caches on a miss, then saves the cache. A failing
      summary request propagates: the cache is left as far as the loop got
      and is not saved. */
  method SummariseNews(items: seq<NewsItem>, cache: NewsCache, summariser: Summariser)
    returns (r: Result<seq<NewsItem>>)
    modifies cache
    ensures Pass(items, old(cache.entries), summariser).Ok? ==>
      && r == Ok(Pass(items, old(cache.entries), summariser).value.0)
      && cache.entries == Pass(items, old(cache.entries), summariser).value.1
      && cache.saved == Some(cache.entries)
    ensures Pass(items, old(cache.entries), summariser).Err? ==>
      && r == Err(Pass(items, old(cache.entries), summariser).error)
      && cache.saved == old(cache.saved)
  {
    ghost var m0 := cache.entries;
    var results: seq<NewsItem> := [];
    var i := 0;
    while i < |items|
      invariant 0 <= i <= |items|
      invariant Pass(items[..i], m0, summariser) == Ok((results, cache.entries))
      invariant cache.saved == old(cache.saved)
    {
      PassExtend(items, i, m0, summariser, results, cache.entries);
      var item := Visit(items[i], cache, summariser);
      if item.Err? {
        PassErrorSticks(items, m0, summariser, i + 1);
        return Err(item.error);
      }
      results := results + [item.value];
      i := i + 1;
    }
    assert items[..i] == items;
    cache.Save();
    r := Ok(results);
  }

  /** The body of the loop of `summarise_news` for one item. */
  method Visit(item: NewsItem, cache: NewsCache, summariser: Summariser) returns (r: Result<NewsItem>)
    modifies cache
    ensures var step := Step(item, old(cache.entries), summariser);
      && (step.Ok? ==> r == Ok(step.value.0) && cache.entries == step.value.1)
      && (step.Err? ==> r == Err(step.error))
    ensures cache.saved == old(cache.saved)
  {
    var cached := cache.Get(item.link);
    if cached.Some? && IsTruthy(cached.value) {
      return Ok(FromCache(item, cached.value));
    }
    var text := Summarise(item, summariser);
    if text.Err? {
      return Err(text.error);
    }
    var updated := item.(summary := text.value);
    cache.Set(updated.link, updated);
    return Ok(updated);
  }

  lemma PassExtend(items: seq<NewsItem>, i: nat, m: map<string, Entry>, s: Summariser,
                   done: seq<NewsItem>, m1: map<string, Entry>)
    requires i < |items| && Pass(items[..i], m, s) == Ok((done, m1))
    ensures Step(items[i], m1, s).Err? ==> Pass(items[..i + 1], m, s) == Err(Step(items[i], m1, s).error)
    ensures Step(items[i], m1, s).Ok? ==>
      Pass(items[..i + 1], m, s) == Ok((done + [Step(items[i], m1, s).value.0], Step(items[i], m1, s).value.1))
  {
    var p := items[..i + 1];
    assert p[..|p| - 1] == items[..i];
    assert p[|p| - 1] == items[i];
    assert Pass(p[..|p| - 1], m, s) == Ok((done, m1));
    var step := Step(items[i], m1, s);
    if step.Err? {
      assert Pass(p, m, s) == Err(step.error);
    } else {
      assert Pass(p, m, s) == Ok((done + [step.value.0], step.value.1));
    }
  }

  lemma {:induction false} PassErrorSticks(items: seq<NewsItem>, m: map<string, Entry>, s: Summariser, i: nat)
    requires i <= |items|
    requires Pass(items[..i], m, s).Err?
    ensures Pass(items, m, s) == Pass(items[..i], m, s)
    decreases |items| - i
  {
    if i < |items| {
      assert items[..i + 1][..i] == items[..i];
      PassErrorSticks(items, m, s, i + 1);
    } else {
      assert items[..i] == items;
    }
  }

  /** `main` keeps at most this many of the fetched items. */
  const MaxItems := 30

  /** The items `main` keeps: the first `MaxItems` of the fetched list. */
  function Capped(items: seq<NewsItem>): (r: seq<NewsItem>)
    ensures |r| == Min(MaxItems, |items|) && r <= items
  {
    items[..Min(MaxItems, |items|)]
  }

  /** Capping a newest-first list keeps its newest items: what it keeps
      starts the list, stays newest first, and no dropped item is newer than a
      kept one. */
  lemma CapKeepsNewest(items: seq<NewsItem>)
    requires NewestFirst(items)
    ensures var kept := Capped(items);
      && |kept| == Min(MaxItems, |items|) && kept <= items && NewestFirst(kept)
      && forall x, y :: x in kept && y in items[|kept|..] ==> !Earlier(x.published, y.published)
  {
    var kept := Capped(items);
    forall x, y | x in kept && y in items[|kept|..]
      ensures !Earlier(x.published, y.published)
    {
      var i :| 0 <= i < |kept| && kept[i] == x;
      var j :| 0 <= j < |items| - |kept| && items[|kept|..][j] == y;
      assert items[i] == x && items[|kept| + j] == y;
    }
  }

  /** What `main` computes from the feed list, the cache records and the
      brief stored before the run: the summarised items, the new cache
      records and the new brief, or the first exception raised. */
  function Run(feeds: seq<string>, parse: string -> ParsedFeed, m: map<string, Entry>, summariser: Summariser,
               composer: Composer, previous: Option<DailyBrief>): (r: Result<(seq<NewsItem>, map<string, Entry>, DailyBrief)>)
    ensures r.Ok? ==> FetchResult(feeds, parse).Ok?
    ensures summariser.Offline? && composer.NoClient? ==> (r.Ok? <==> FetchResult(feeds, parse).Ok?)
  {
    match FetchResult(feeds, parse)
    case Err(e) => Err(e)
    case Ok(fetched) =>
      match Pass(Capped(fetched), m, summariser)
      case Err(e) => Err(e)
      case Ok((items, m')) =>
        match Compose(items, previous, composer)
        case Err(e) => Err(e)
        case Ok(brief) => Ok((items, m', brief))
  }

  /** A successful run shows at most `MaxItems` items, newest first, each
      with a link and each with a cache record, and keeps every non-empty
      record the cache held before. */
  lemma RunShape(feeds: seq<string>, parse: string -> ParsedFeed, m: map<string, Entry>, summariser: Summariser,
                 composer: Composer, previous: Option<DailyBrief>)
    requires Run(feeds, parse, m, summariser, composer, previous).Ok?
    ensures var (items, m', _) := Run(feeds, parse, m, summariser, composer, previous).value;
      && |items| <= MaxItems
      && NewestFirst(items)
      && (forall k :: 0 <= k < |items| ==> items[k].link != "" && Hit(m', items[k].link))
      && KeepsRecords(m, m')
  {
    var fetched := FetchResult(feeds, parse).value;
    FetchedItems(feeds, parse);
    CapKeepsNewest(fetched);
    var kept := Capped(fetched);
    PassShape(kept, m, summariser);
    PassCachesAll(kept, m, summariser);
    PassKeepsRecords(kept, m, summariser);
    var items := Pass(kept, m, summariser).value.0;
    forall i, j | 0 <= i < j < |items|
      ensures !Earlier(items[i].published, items[j].published)
    {
      assert items[i].published == kept[i].published && items[j].published == kept[j].published;
    }
  }

  /** What `fetch_news` returns is newest first and every item has a link. */
  lemma FetchedItems(feeds: seq<string>, parse: string -> ParsedFeed)
    requires FetchResult(feeds, parse).Ok?
    ensures NewestFirst(FetchResult(feeds, parse).value)
    ensures forall k :: 0 <= k < |FetchResult(feeds, parse).value| ==> FetchResult(feeds, parse).value[k].link != ""
  {
    var gathered := Gathered(feeds, parse).value;
    var sorted := SortNewestFirst(gathered);
    forall k | 0 <= k < |sorted|
      ensures sorted[k].link != ""
    {
      assert sorted[k] in multiset(gathered);
    }
  }

  /** `main`: reads the brief stored by the previous run, fetches the feeds
      named by the environment, keeps the newest `MaxItems`, summarises them
      through the cache, composes and stores the new brief, and returns the
      items, the brief and the commit message. The first exception raised
      ends the run; the brief is then not stored. */
  method Refresh(env: Option<string>, parse: string -> ParsedFeed, cache: NewsCache, summariser: Summariser,
                 composer: Composer, state: AgentState, now: string)
    returns (r: Result<(seq<NewsItem>, DailyBrief, string)>)
    modifies cache, state
    ensures var run := Run(FeedList(env), parse, old(cache.entries), summariser, composer, old(state.PreviousBrief()));
      && (run.Err? ==> r == Err(run.error) && state.data == old(state.data) && state.saved == old(state.saved))
      && (run.Ok? ==>
            && r == Ok((run.value.0, run.value.2, CommitMessage(run.value.2)))
            && cache.entries == run.value.1 && cache.saved == Some(cache.entries)
            && state.data == StateData(Some(ToDict(run.value.2)), Some(now)) && state.saved == Some(state.data)
            && state.PreviousBrief() == Some(run.value.2))
  {
    var feeds := FeedList(env);
    var previous := state.PreviousBrief();
    var fetched := FetchNews(feeds, parse);
    if fetched.Err? {
      return Err(fetched.error);
    }
    var items := Capped(fetched.value);
    var summarised := SummariseNews(items, cache, summariser);
    if summarised.Err? {
      return Err(summarised.error);
    }
    var brief := Compose(summarised.value, previous, composer);
    if brief.Err? {
      return Err(brief.error);
    }
    state.UpdateBrief(brief.value, now);
    return Ok((summarised.value, brief.value, CommitMessage(brief.value)));
  }
}
