/** `ArticleSelector` and `MessageGenerator` of scripts/share_to_linkedin.py:
    which cached article to share next, and the text that goes with it. */
module Sharing {
  import opened Wrappers
  import opened Text
  import opened News

  /** The article dictionary `select_article` builds from a cache record. */
  datatype Article = Article(
    url: string,
    title: string,
    summary: string,
    source: string,
    severity: string,
    categories: seq<string>)

  /** The buckets of `select_article`, highest priority first. */
  const Severities: seq<string> := ["CRITICAL", "HIGH", "MEDIUM", "LOW"]

  /** A record without a `severity` key counts as LOW. */
  function SeverityOf(e: Entry): (s: string)
    ensures e.severity.None? ==> s == "LOW"
    ensures e.severity.Some? ==> s == e.severity.value
  {
    e.severity.GetOr("LOW")
  }

  /** The article for one cache record: missing texts default to "", missing
      categories to []. */
  function ArticleOf(url: string, e: Entry): (a: Article)
    ensures a.url == url && a.severity == SeverityOf(e)
    ensures e.title.None? ==> a.title == ""
    ensures e.summary.None? ==> a.summary == ""
    ensures e.source.None? ==> a.source == ""
    ensures e.categories.None? ==> a.categories == []
    ensures e.title.Some? ==> a.title == e.title.value
    ensures e.summary.Some? ==> a.summary == e.summary.value
    ensures e.source.Some? ==> a.source == e.source.value
    ensures e.categories.Some? ==> a.categories == e.categories.value
  {
    Article(url, e.title.GetOr(""), e.summary.GetOr(""), e.source.GetOr(""), SeverityOf(e), e.categories.GetOr([]))
  }

  /** The records whose URL has not been shared yet. */
  function Unshared(cache: map<string, Entry>, shared: set<string>): (r: map<string, Entry>)
    ensures forall url :: url in r <==> url in cache && url !in shared
    ensures forall url :: url in r ==> r[url] == cache[url]
  {
    map url | url in cache && url !in shared :: cache[url]
  }

  /** Nothing is left unshared exactly when every cached URL has been shared. */
  lemma UnsharedEmpty(cache: map<string, Entry>, shared: set<string>)
    ensures Unshared(cache, shared) == map[] <==> cache.Keys <= shared
  {
    if Unshared(cache, shared) == map[] {
      forall url | url in cache ensures url in shared {
        assert url !in Unshared(cache, shared);
      }
    }
  }

  /** The records `select_article` buckets: the unshared ones, or the whole
      cache once every URL has been shared. */
  function Available(cache: map<string, Entry>, shared: set<string>): (avail: map<string, Entry>)
    ensures avail.Keys <= cache.Keys
    ensures forall url :: url in avail ==> avail[url] == cache[url]
    ensures Unshared(cache, shared) != map[] ==> forall url :: url in avail ==> url !in shared
    ensures Unshared(cache, shared) != map[] ==> avail == Unshared(cache, shared)
    ensures Unshared(cache, shared) == map[] ==> avail == cache
  {
    var unshared := Unshared(cache, shared);
    if unshared == map[] then cache else unshared
  }

  /** What remains of the shared set once `select_article` has decided
      whether to start over. */
  function Kept(cache: map<string, Entry>, shared: set<string>): set<string> {
    if Unshared(cache, shared) == map[] then {} else shared
  }

  /** Every available record has one of the four bucket names. */
  predicate KnownSeverities(avail: map<string, Entry>) {
    forall url :: url in avail ==> SeverityOf(avail[url]) in Severities
  }

  /** The URLs of the available records of one severity. */
  function SeverityUrls(avail: map<string, Entry>, severity: string): set<string> {
    set url | url in avail && SeverityOf(avail[url]) == severity
  }

  /** `a` is the article of one of the records in `done` with this severity. */
  predicate InBucket(avail: map<string, Entry>, done: set<string>, severity: string, a: Article) {
    && a.url in done && a.url in avail
    && SeverityOf(avail[a.url]) == severity
    && a == ArticleOf(a.url, avail[a.url])
  }

  /** The position in `Severities` of the first non-empty bucket from `i` on. */
  function FirstPresent(avail: map<string, Entry>, i: nat): (r: Option<nat>)
    requires i <= |Severities|
    ensures r.Some? ==> i <= r.value < |Severities| && SeverityUrls(avail, Severities[r.value]) != {}
    ensures r.Some? ==> forall j :: i <= j < r.value ==> SeverityUrls(avail, Severities[j]) == {}
    ensures r.None? ==> forall j :: i <= j < |Severities| ==> SeverityUrls(avail, Severities[j]) == {}
    decreases |Severities| - i
  {
    if i == |Severities| then None
    else if SeverityUrls(avail, Severities[i]) != {} then Some(i)
    else FirstPresent(avail, i + 1)
  }

  /** The position of the highest severity present: every bucket above it is
      empty, and there is none when every bucket is empty. */
  function TopRank(avail: map<string, Entry>): (r: Option<nat>)
    ensures r.Some? ==> r.value < |Severities| && SeverityUrls(avail, Severities[r.value]) != {}
    ensures r.Some? ==> forall j :: 0 <= j < r.value ==> SeverityUrls(avail, Severities[j]) == {}
    ensures r.None? ==> forall j :: 0 <= j < |Severities| ==> SeverityUrls(avail, Severities[j]) == {}
  {
    FirstPresent(avail, 0)
  }

  /** When every record has a known severity and there is at least one
      record, some bucket is non-empty. */
  lemma SomeBucketPresent(avail: map<string, Entry>)
    requires avail != map[] && KnownSeverities(avail)
    ensures TopRank(avail).Some?
  {
    var url :| url in avail;
    var j :| 0 <= j < |Severities| && Severities[j] == SeverityOf(avail[url]);
    assert url in SeverityUrls(avail, Severities[j]);
  }

  /** The first non-empty bucket, scanning from the top, is the top one. */
  lemma TopRankIs(avail: map<string, Entry>, i: nat)
    requires i < |Severities| && SeverityUrls(avail, Severities[i]) != {}
    requires forall j :: 0 <= j < i ==> SeverityUrls(avail, Severities[j]) == {}
    ensures TopRank(avail) == Some(i)
  {
  }

  /** A bucket that holds the articles of exactly the records of its
      severity is empty exactly when no record has that severity. */
  lemma BucketEmpty(avail: map<string, Entry>, bucket: seq<Article>, severity: string)
    requires forall a :: a in bucket <==> InBucket(avail, avail.Keys, severity, a)
    ensures bucket == [] <==> SeverityUrls(avail, severity) == {}
  {
    if bucket != [] {
      assert InBucket(avail, avail.Keys, severity, bucket[0]);
      assert bucket[0].url in SeverityUrls(avail, severity);
    }
    if SeverityUrls(avail, severity) != {} {
      var url :| url in SeverityUrls(avail, severity);
      assert InBucket(avail, avail.Keys, severity, ArticleOf(url, avail[url]));
    }
  }

  /** The grouping loop of `select_article`: every available record goes
      into the list of its severity; a severity outside the four raises
      `KeyError`. */
  method Bucketise(avail: map<string, Entry>) returns (r: Result<map<string, seq<Article>>>)
    ensures r.Ok? <==> KnownSeverities(avail)
    ensures r.Err? ==> r.error.KeyError? && r.error.key !in Severities
    ensures r.Err? ==> exists url :: url in avail && SeverityOf(avail[url]) == r.error.key
    ensures r.Ok? ==> forall s :: s in r.value <==> s in Severities
    ensures r.Ok? ==> forall s, a :: s in r.value ==> (a in r.value[s] <==> InBucket(avail, avail.Keys, s, a))
  {
    var buckets: map<string, seq<Article>> := map["CRITICAL" := [], "HIGH" := [], "MEDIUM" := [], "LOW" := []];
    var todo := avail.Keys;
    while todo != {}
      invariant todo <= avail.Keys
      invariant forall s :: s in buckets <==> s in Severities
      invariant forall s, a :: s in buckets ==> (a in buckets[s] <==> InBucket(avail, avail.Keys - todo, s, a))
      invariant forall url :: url in avail && url !in todo ==> SeverityOf(avail[url]) in Severities
      decreases todo
    {
      var url :| url in todo;
      var severity := SeverityOf(avail[url]);
      if severity !in buckets {
        return Err(KeyError(severity));
      }
      var article := ArticleOf(url, avail[url]);
      BucketStep(avail, avail.Keys - todo, url, buckets, severity, article);
      buckets := buckets[severity := buckets[severity] + [article]];
      todo := todo - {url};
    }
    assert avail.Keys - todo == avail.Keys;
    return Ok(buckets);
  }

  /** One turn of the grouping loop keeps every list equal to its bucket. */
  lemma BucketStep(avail: map<string, Entry>, done: set<string>, url: string,
                   buckets: map<string, seq<Article>>, severity: string, article: Article)
    requires url in avail && url !in done && severity == SeverityOf(avail[url]) && severity in buckets
    requires article == ArticleOf(url, avail[url])
    requires forall s, a :: s in buckets ==> (a in buckets[s] <==> InBucket(avail, done, s, a))
    ensures var next := buckets[severity := buckets[severity] + [article]];
      forall s, a :: s in next ==> (a in next[s] <==> InBucket(avail, done + {url}, s, a))
  {
    var next := buckets[severity := buckets[severity] + [article]];
    forall s, a | s in next
      ensures a in next[s] <==> InBucket(avail, done + {url}, s, a)
    {
      if s == severity {
        assert a in next[s] <==> a in buckets[s] || a == article;
      } else {
        assert next[s] == buckets[s];
      }
    }
  }

  /** What `_save_state` writes: the shared URLs and the moment of sharing. */
  datatype SharedState = SharedState(sharedArticles: set<string>, lastSharedAt: string)

  /** `_load_state`: the `shared_articles` list of the state file, as a set; a
      missing or malformed file, or a missing key, gives the empty set. */
  function LoadedShared(file: StoredFile<Option<seq<string>>>): (s: set<string>)
    ensures file.Parsed? && file.content.Some? ==> forall u :: u in s <==> u in file.content.value
    ensures !file.Parsed? || file.content.None? ==> s == {}
  {
    if file.Parsed? && file.content.Some? then set u | u in file.content.value else {}
  }

  class ArticleSelector {
    /** The URLs shared so far, as held in memory. */
    var sharedArticles: set<string>
    /** The content of the state file after the last `_save_state`, if any happened. */
    var saved: Option<SharedState>

    constructor (stateFile: StoredFile<Option<seq<string>>>)
      ensures sharedArticles == LoadedShared(stateFile) && saved == None
    {
      sharedArticles := LoadedShared(stateFile);
      saved := None;
    }

    /** `_save_state`; the clock reading is a parameter. */
    method SaveState(now: string)
      modifies this
      ensures sharedArticles == old(sharedArticles)
      ensures saved == Some(SharedState(sharedArticles, now))
    {
      saved := Some(SharedState(sharedArticles, now));
    }

    /** `select_article`: an article of the highest severity present among
        the unshared records (or among all records, once every one has been
        shared, after emptying the set), chosen freely within its bucket,
        then recorded and saved. A missing cache file gives none; a malformed
        one raises; an unknown severity raises after the set may have been
        emptied in memory. */
    method SelectArticle(cacheFile: StoredFile<map<string, Entry>>, now: string) returns (r: Result<Option<Article>>)
      modifies this
      ensures cacheFile.Missing? ==> r == Ok(None)
      ensures cacheFile.Malformed? ==> r == Err(JsonDecodeError)
      ensures !cacheFile.Parsed? ==> sharedArticles == old(sharedArticles) && saved == old(saved)
      ensures cacheFile.Parsed? && !KnownSeverities(Available(cacheFile.content, old(sharedArticles))) ==>
        var avail := Available(cacheFile.content, old(sharedArticles));
        && r.Err? && r.error.KeyError? && r.error.key !in Severities
        && (exists url :: url in avail && SeverityOf(avail[url]) == r.error.key)
        && sharedArticles == Kept(cacheFile.content, old(sharedArticles)) && saved == old(saved)
      ensures cacheFile.Parsed? && KnownSeverities(Available(cacheFile.content, old(sharedArticles))) ==>
        var avail := Available(cacheFile.content, old(sharedArticles));
        var kept := Kept(cacheFile.content, old(sharedArticles));
        && (TopRank(avail).None? ==> r == Ok(None) && sharedArticles == kept && saved == old(saved))
        && (TopRank(avail).Some? ==>
              && r.Ok? && r.value.Some?
              && InBucket(avail, avail.Keys, Severities[TopRank(avail).value], r.value.value)
              && sharedArticles == kept + {r.value.value.url}
              && saved == Some(SharedState(sharedArticles, now)))
    {
      if cacheFile.Missing? {
        return Ok(None);
      }
      if cacheFile.Malformed? {
        return Err(JsonDecodeError);
      }
      var cache := cacheFile.content;
      var available := Unshared(cache, sharedArticles);
      if available == map[] {
        sharedArticles := {};
        available := cache;
      }
      var grouped := Bucketise(available);
      if grouped.Err? {
        return Err(grouped.error);
      }
      var buckets := grouped.value;
      var i := 0;
      while i < |Severities|
        invariant 0 <= i <= |Severities|
        invariant forall j :: 0 <= j < i ==> SeverityUrls(available, Severities[j]) == {}
        invariant sharedArticles == Kept(cache, old(sharedArticles)) && saved == old(saved)
      {
        var bucket := buckets[Severities[i]];
        BucketEmpty(available, bucket, Severities[i]);
        if bucket != [] {
          assert bucket[0] in bucket;
          var selected :| selected in bucket;
          TopRankIs(available, i);
          sharedArticles := sharedArticles + {selected.url};
          SaveState(now);
          return Ok(Some(selected));
        }
        i := i + 1;
      }
      return Ok(None);
    }
  }

  /** Exclusion: while some cached URL is unshared, the chosen article is one
      of those. */
  lemma ChosenWasNotShared(cache: map<string, Entry>, shared: set<string>, severity: string, a: Article)
    requires !(cache.Keys <= shared)
    requires InBucket(Available(cache, shared), Available(cache, shared).Keys, severity, a)
    ensures a.url in cache && a.url !in shared
  {
    UnsharedEmpty(cache, shared);
  }

  /** Reset: once every URL of a non-empty cache has been shared, the set
      starts over and an article is chosen, so afterwards the set holds only
      its URL. */
  lemma ResetChoosesOne(cache: map<string, Entry>, shared: set<string>)
    requires cache != map[] && cache.Keys <= shared && KnownSeverities(cache)
    ensures Kept(cache, shared) == {}
    ensures Available(cache, shared) == cache && TopRank(cache).Some?
  {
    UnsharedEmpty(cache, shared);
    SomeBucketPresent(cache);
  }

  /** With an empty cache nothing is chosen. */
  lemma EmptyCacheChoosesNone(shared: set<string>)
    ensures KnownSeverities(Available(map[], shared)) && TopRank(Available(map[], shared)).None?
  {
    assert Available(map[], shared) == map[];
    forall j | 0 <= j < |Severities|
      ensures SeverityUrls(map[], Severities[j]) == {}
    {
    }
  }

  const CriticalEmoji := "\U{1F6A8}"
  const HighEmoji := "\U{26A0}\U{FE0F}"
  const MediumEmoji := "\U{1F4CA}"
  const LowEmoji := "\U{2139}\U{FE0F}"
  const OtherEmoji := "\U{1F4F0}"

  /** `severity_emoji.get(severity, ...)`. */
  function Emoji(severity: string): string {
    if severity == "CRITICAL" then CriticalEmoji
    else if severity == "HIGH" then HighEmoji
    else if severity == "MEDIUM" then MediumEmoji
    else if severity == "LOW" then LowEmoji
    else OtherEmoji
  }

  const CriticalLead := "CRITICAL ALERT: "
  const HighLead := "Important Security Update: "
  const MediumLead := "Security Insight: "
  const LowLead := "From TheCyberNews: "

  const CriticalTail :=
    "\n\nThis is a high-priority threat that requires immediate attention from security teams. "
    + "Stay informed and take action.\n\n#CyberSecurity #ThreatIntelligence #InfoSec #SecurityAlert"
  const HighTail :=
    "\n\nThis high-severity issue deserves your attention. Keeping up with the latest threats is "
    + "essential for maintaining a strong security posture.\n\n#CyberSecurity #InfoSec #ThreatIntel #Security"
  const MediumTail :=
    "\n\nAnother important development in the cybersecurity landscape. Stay ahead of emerging threats."
    + "\n\n#CyberSecurity #InfoSec #Security"
  const LowTail :=
    "\n\nStaying informed on cybersecurity trends and news. Knowledge is the first line of defense."
    + "\n\n#CyberSecurity #InfoSec #TechNews"

  /** The text of the template before the title; an unknown severity takes
      the MEDIUM template. */
  function Lead(severity: string): string {
    if severity == "CRITICAL" then CriticalLead
    else if severity == "HIGH" then HighLead
    else if severity == "LOW" then LowLead
    else MediumLead
  }

  /** The text of the template after the title. */
  function Tail(severity: string): string {
    if severity == "CRITICAL" then CriticalTail
    else if severity == "HIGH" then HighTail
    else if severity == "LOW" then LowTail
    else MediumTail
  }

  /** What follows the emoji: a space, the template's lead, the title and
      the rest of the template. */
  function Rest(severity: string, title: string): string {
    " " + Lead(severity) + title + Tail(severity)
  }

  /** `_fallback_message` for an article whose `severity` and `title` keys
      may be missing: a missing severity is MEDIUM and a missing title "". */
  function FallbackMessage(severity: Option<string>, title: Option<string>): (m: string)
    ensures var s := severity.GetOr("MEDIUM");
      && Emoji(s) + " " <= m
      && |Emoji(s)| + 1 + |Lead(s)| + |title.GetOr("")| <= |m|
      && m[|Emoji(s)| + 1 + |Lead(s)|..][..|title.GetOr("")|] == title.GetOr("")
  {
    var s := severity.GetOr("MEDIUM");
    var t := title.GetOr("");
    TitleInside(Emoji(s), Lead(s), t, Tail(s));
    Emoji(s) + Rest(s, t)
  }

  /** Where the title sits in a message built from its four parts. */
  lemma TitleInside(emoji: string, lead: string, title: string, tail: string)
    ensures var m := emoji + (" " + lead + title + tail);
      && emoji + " " <= m
      && |emoji| + 1 + |lead| + |title| <= |m|
      && m[|emoji| + 1 + |lead|..][..|title|] == title
  {
    var m := emoji + (" " + lead + title + tail);
    assert m[|emoji| + 1 + |lead|..] == title + tail;
  }

  /** A missing severity is MEDIUM. */
  lemma MissingSeverityIsMedium(title: Option<string>)
    ensures FallbackMessage(None, title) == FallbackMessage(Some("MEDIUM"), title)
  {
  }

  /** An unknown severity gets the MEDIUM text behind the newspaper emoji. */
  lemma UnknownSeverityMessage(severity: string, title: Option<string>)
    requires severity !in Severities
    ensures FallbackMessage(Some(severity), title) == OtherEmoji + FallbackMessage(Some("MEDIUM"), title)[|MediumEmoji|..]
  {
    var rest := Rest("MEDIUM", title.GetOr(""));
    assert Rest(severity, title.GetOr("")) == rest;
    DropPrefix(MediumEmoji, rest);
  }

  lemma DropPrefix(a: string, b: string)
    ensures (a + b)[|a|..] == b
  {
  }

  /** The text-generation client of `MessageGenerator`, if one is configured. */
  datatype Generator = NoClient | Client(complete: Article -> Completion)

  /** `generate`: the stripped completion, or the fallback message when
      there is no client or the request raised. */
  function Generate(article: Article, generator: Generator): (m: string)
    ensures generator.NoClient? ==> m == FallbackMessage(Some(article.severity), Some(article.title))
    ensures generator.Client? && generator.complete(article).Raised? ==>
              m == FallbackMessage(Some(article.severity), Some(article.title))
    ensures generator.Client? && generator.complete(article).Answered? ==>
              IsStripped(m) && m == Strip(generator.complete(article).text)
  {
    if generator.NoClient? then FallbackMessage(Some(article.severity), Some(article.title))
    else
      match generator.complete(article)
      case Answered(text) => Strip(text)
      case Raised => FallbackMessage(Some(article.severity), Some(article.title))
  }
}
