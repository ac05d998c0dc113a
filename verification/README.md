# TheCyberNews pipeline, modelled in Dafny

The model covers three scripts:

- `scripts/update_news.py` builds the site. It reads RSS feeds, keeps the entries that carry a timestamp and a link, and sorts them newest first. It keeps the newest 30. Each item is summarised once, with a URL-keyed JSON cache in between. The script then composes a daily brief, stores it as agent state, and writes a commit message.
- `scripts/share_to_linkedin.py` picks the next cached article to share. Shared URLs are excluded, CRITICAL beats HIGH, HIGH beats MEDIUM and MEDIUM beats LOW, and the pick is random within a bucket. The script also builds the text of the post.
- `scripts/extract_commit_msg.py` hands the commit message and its first line to the CI workflow through the multiline-output syntax of GitHub Actions.

Modules, one concept each:

| module | file | what it holds |
|---|---|---|
| `Wrappers` | wrappers.dfy | `Option`, `Result`, and the Python exceptions that escape the scripts |
| `Text` | text.dfy | Python's `isspace`, `strip` and `split(sep)`, plus a first-index search |
| `News` | news.dfy | timestamps and their `isoformat` text, `NewsItem`, and the cached record `Entry` |
| `Cache` | cache.dfy | the `NewsCache` class |
| `Summary` | summary.dfy | `Summariser.summarise`, with its 280-character fallback |
| `Briefing` | briefing.dfy | `DailyBrief`, its dictionary form, the `AgentState` class, `compose` and the commit message |
| `Images` | images.dfy | the `<img src>` search over entry HTML |
| `Feeds` | feeds.dfy | `extract_image_from_entry`, `parse_entry`, `fetch_news`, and the feed list of `main` |
| `Pipeline` | pipeline.dfy | `summarise_news` and `main` |
| `Sharing` | sharing.dfy | the `ArticleSelector` class, `_fallback_message` and `generate` |
| `CommitTitle` | commit_title.dfy | `extract_commit_msg.py` |

State the scripts update in place is modelled as classes:

- `NewsCache.entries` is a `map`.
- `AgentState.data` is a record.
- `ArticleSelector.sharedArticles` is a `set`.

Every class also has a `saved` field that records what the last save wrote.

The loops become methods, and each is proved equal to a function over the processed prefix:

- `FetchNews` and `FetchFeed` against `Gathered` and `KeptItems`;
- `SummariseNews` against `Pass`;
- `Bucketise` against `InBucket`;
- the priority loop of `SelectArticle` against `TopRank`.

The properties are proved of those functions.

The outside world appears as parameters:

- feed parsing is a function from URL to parsed feed;
- each text-generation client is an `Option`-like datatype whose answer is opaque;
- the contents of the cache and state files are `StoredFile` values: missing, malformed, or parsed;
- the clock reading is a string;
- `random.choice` is a nondeterministic choice (`:|`) from the bucket.

Two behaviours of the code are worth stating plainly:

- The fallback summary at scripts/update_news.py:112 appends the three characters `â€¦`, the UTF-8 bytes of an ellipsis decoded as Windows-1252. A truncated summary is therefore 283 characters long. `Summary.FallbackLength` proves it.
- Neither `summarise` nor the client request of `compose` sits inside a `try`. A failing text-generation call therefore ends the run, and the model returns `Err(ApiError)`.

## Model

| member | source | states |
|---|---|---|
| `Cache.NewsCache.constructor` | scripts/update_news.py:70-80 | the entries are the parsed file; a missing or malformed file gives the empty map |
| `Cache.NewsCache.Get` | scripts/update_news.py:85-86 | there is a record exactly when the link is a key, and it is that key's record |
| `Cache.NewsCache.Set` | scripts/update_news.py:88-96 | only the link's record changes; a later `Get` returns the item's title, summary, source, categories and image, and its published time as ISO text |
| `Cache.NewsCache.Save` | scripts/update_news.py:82-83 | the saved content is exactly the entries, and the entries do not change |
| `Cache.SetSaveReload` | scripts/update_news.py:70-96 | after `set`, `save` and loading the saved file into a new cache, `get` returns the record written for the item, and every other link keeps the record it was loaded with |
| `Cache.EntryOf` | scripts/update_news.py:89-96 | the record written for an item is never an empty object, so it always counts as a hit, and it has no `severity` |
| `News.IsoFormat` | scripts/update_news.py:61-62 | the ISO text is 25 characters: date, `T`, time, `+00:00` |
| `News.IsoFormatRoundTrip` | scripts/update_news.py:61-62 | reading the ISO text back gives the same timestamp, for every valid timestamp |
| `News.DigitsRoundTrip` | scripts/update_news.py:61-62 | a zero-padded decimal field reads back as its number |
| `News.EarlierIsStrictTotalOrder` | scripts/update_news.py:361 | the order by `published` is irreflexive, transitive and total |
| `Summary.Snippet` | scripts/update_news.py:111 | the snippet of title and summary has no surrounding whitespace |
| `Summary.FallbackSummary` | scripts/update_news.py:109-112 | the first `min(280, n)` characters of the snippet, followed by the marker exactly when `n > 280`; so the snippet itself when `n <= 280` |
| `Summary.FallbackLength` | scripts/update_news.py:112 | the fallback is 283 characters when the snippet is longer than 280, and the snippet's length otherwise |
| `Summary.Summarise` | scripts/update_news.py:108-137 | without a client, the fallback; with one, `Ok` of the stripped answer, and `Err(ApiError)` exactly when the request raises |
| `Briefing.ToDict` | scripts/update_news.py:147-153 | all four keys are present and hold the brief's fields |
| `Briefing.FromDict` | scripts/update_news.py:156-162 | a present key gives its value to the field; a missing headline or narrative becomes "", and missing lists become [] |
| `Briefing.BriefRoundTrip` | scripts/update_news.py:147-162 | `from_dict(to_dict(b)) == b` for every brief |
| `Briefing.DictRoundTrip` | scripts/update_news.py:147-162 | a dictionary with exactly the four keys, all present, survives `to_dict(from_dict(d))` |
| `Briefing.AgentState.constructor` | scripts/update_news.py:166-176 | the state is the parsed file, or empty when the file is missing or malformed |
| `Briefing.AgentState.PreviousBrief` | scripts/update_news.py:181-188 | none exactly when `latest_brief` is absent or `{}`; otherwise the brief read from it, so an object with none of the four keys but other keys gives the default brief |
| `Briefing.OtherKeysGiveDefaultBrief` | scripts/update_news.py:181-186 | a `latest_brief` object holding only keys other than the four is truthy and reads as the brief with empty headline, narrative and lists |
| `Briefing.AgentState.UpdateBrief` | scripts/update_news.py:190-193 | the state holds the brief's dictionary and the time, it is saved, and `PreviousBrief` then returns the brief |
| `Briefing.Sources` | scripts/update_news.py:213 | the sources of the items, one per item, in order |
| `Briefing.FallbackBrief` | scripts/update_news.py:206-218 | the fixed headline and narrative; the themes are the sources of the first `min(3, n)` items, in order; exactly the two fixed action items |
| `Briefing.Compose` | scripts/update_news.py:205-294 | the fallback brief when there is no client or no item; a non-JSON answer also gives the fallback; a JSON object gives `from_dict` of it; a raised request is `ApiError`; a JSON value that is not an object raises `AttributeError` |
| `Briefing.CommitMessage` | scripts/update_news.py:297-298 | the message starts with `auto: ` |
| `Briefing.CommitMessageSubject` | scripts/update_news.py:297-298 | after the prefix comes the stripped headline, or `refresh cybersecurity brief` when that is empty |
| `Briefing.CommitMessageStripped` | scripts/update_news.py:297-298 | the message is longer than the prefix and has no surrounding whitespace |
| `Images.FirstImgSrc` | scripts/update_news.py:321-327 | a found source is non-empty and contains no quote |
| `Images.LastSrcIs` | scripts/update_news.py:325 | the greedy `[^>]+` settles on the last position before the tag's end where `src=` and a quoted value follow |
| `Images.FindsUpperCaseTag` | scripts/update_news.py:325-327 | the search finds `a` in `<IMG src='a'>`: the match ignores case and yields the quoted value |
| `Images.NoImgTagNoImage` | scripts/update_news.py:325-327 | HTML without an `<img` tag yields no source |
| `Feeds.ImagePriority` | scripts/update_news.py:302-329 | in order: the first image media URL; else the first thumbnail URL; else the first image enclosure's href; else the first `<img src>`; else "" |
| `Feeds.ExtractImage` | scripts/update_news.py:302-329 | an entry with no media, thumbnail, enclosure or HTML has no image |
| `Feeds.Terms` | scripts/update_news.py:338 | every kept category is a non-empty term of some tag, and every non-empty term is kept |
| `Feeds.TermsOne` | scripts/update_news.py:338 | one tag gives its term when the term is present and not empty, and nothing otherwise |
| `Feeds.TermsConcat` | scripts/update_news.py:338 | the terms of two tag lists in a row are the first list's terms followed by the second's, so order and repeats are kept |
| `Feeds.ParseEntry` | scripts/update_news.py:332-349 | none exactly when both timestamps are missing; `ValueError` exactly when the stamp used (published, else updated) is out of range; otherwise the item has the defaulted title, link and summary, the source, the terms and the image |
| `Feeds.Insert` | scripts/update_news.py:361 | inserting adds exactly one copy of the item |
| `Feeds.InsertKeepsOrder` | scripts/update_news.py:361 | inserting into a newest-first list keeps it newest first |
| `Feeds.SortNewestFirst` | scripts/update_news.py:361 | the sorted list is a permutation of the input and is newest first |
| `Feeds.SortIsStable` | scripts/update_news.py:361 | items with equal timestamps keep their input order |
| `Feeds.KeptItems` | scripts/update_news.py:357-360 | every kept item has a link |
| `Feeds.Gathered` | scripts/update_news.py:354-360 | every gathered item has a link |
| `Feeds.FetchFeed` | scripts/update_news.py:355-360 | the items one feed contributes, as `KeptItems` of its entries under its source title |
| `Feeds.SourceTitle` | scripts/update_news.py:356 | the source label: the channel title, else the feed URL; this member has no contract |
| `Feeds.FetchNews` | scripts/update_news.py:352-362 | the result is `FetchResult`: a newest-first permutation of the gathered items, each with a link, or the first error |
| `Feeds.KeptItemsErrorSticks` | scripts/update_news.py:357-360 | an error in one entry is the result of the whole feed |
| `Feeds.GatheredErrorSticks` | scripts/update_news.py:354-360 | an error in one feed is the result of the whole fetch |
| `Feeds.Strips` | scripts/update_news.py:403 | every part is stripped, one result per part |
| `Feeds.CleanFeeds` | scripts/update_news.py:403 | there are at most as many feeds as parts; `CleanFeedsKeep`, `CleanFeedsExact` and `CleanFeedsFirst` state which and in what order |
| `Feeds.CleanFeedsMember` | scripts/update_news.py:403 | one feed is kept exactly when it is not empty and is a stripped part |
| `Feeds.CleanFeedsKeep` | scripts/update_news.py:403 | the kept feeds are exactly the non-empty stripped parts, and each is stripped |
| `Feeds.CleanFeedsExact` | scripts/update_news.py:403 | a feed is kept exactly when it is not empty and some part strips to it |
| `Feeds.CleanFeedsFirst` | scripts/update_news.py:403 | the parts keep their order: the first kept feed is the first part that does not strip to "", followed by the feeds of the parts after it |
| `Feeds.StripsKeepOut` | scripts/update_news.py:403 | stripping adds no character, so no feed holds a comma |
| `Feeds.FeedList` | scripts/update_news.py:402-403 | the default feeds when the variable is unset or empty; otherwise exactly `CleanFeeds` of the comma-separated parts, each non-empty, stripped and free of commas |
| `Pipeline.FromCache` | scripts/update_news.py:369-372 | a hit keeps the item's title, link, published time and source, and takes the cached summary (else ""), categories (else []) and image (else the item's own) |
| `Pipeline.Step` | scripts/update_news.py:368-376 | one loop turn fails exactly when it is a miss and the request raises |
| `Pipeline.Pass` | scripts/update_news.py:365-378 | without a client the pass never fails |
| `Pipeline.StepShape` | scripts/update_news.py:368-376 | one step keeps the item's title, link, published time and source |
| `Pipeline.StepRecords` | scripts/update_news.py:368-375 | a hit leaves the cache as it is; a miss writes the summarised item's record under its link; either way the link has a non-empty record afterwards, no non-empty record changes, and no other key is added |
| `Pipeline.PassShape` | scripts/update_news.py:365-378 | the pass gives the same number of items, with the same links, titles, times and sources in the same order |
| `Pipeline.PassKeepsRecords` | scripts/update_news.py:369-375 | no non-empty record present before the pass is overwritten |
| `Pipeline.PassCachesAll` | scripts/update_news.py:365-378 | after the pass every item's link has a record |
| `Pipeline.PassKeys` | scripts/update_news.py:365-378 | the cache keys afterwards are the keys before plus the items' links |
| `Pipeline.PassReplays` | scripts/update_news.py:368-376 | over a cache that keeps the pass's records, the pass calls no summariser and changes nothing |
| `Pipeline.SecondPassChangesNothing` | scripts/update_news.py:365-378 | a second run over the same items leaves the cache and the items unchanged, whatever the summariser |
| `Pipeline.KeepsRecordsTransitive` | scripts/update_news.py:369-375 | keeping records composes |
| `Pipeline.Visit` | scripts/update_news.py:368-376 | one loop body is one `Step` |
| `Pipeline.SummariseNews` | scripts/update_news.py:365-378 | the results and the new cache are those of `Pass`, and the cache is saved; on a raised request the error propagates and nothing is saved |
| `Pipeline.CapKeepsNewest` | scripts/update_news.py:410-411 | the capped list is the first `min(30, n)` items and is newest first, and no dropped item is newer than a kept one |
| `Pipeline.Capped` | scripts/update_news.py:411 | the kept list is a prefix of the fetched list, of length `min(30, n)` |
| `Pipeline.FetchedItems` | scripts/update_news.py:352-362 | the fetched items are newest first and each has a link |
| `Pipeline.RunShape` | scripts/update_news.py:400-415 | a successful run shows at most 30 items, newest first; each has a link and a cache record; every earlier non-empty record is kept |
| `Pipeline.Run` | scripts/update_news.py:400-415 | a run succeeds only when the fetch does; without any client it succeeds exactly when the fetch does |
| `Pipeline.Refresh` | scripts/update_news.py:400-415 | the items, brief and commit message are those of `Run` over the brief stored before the fetch; the cache and the state are saved; after an error the brief is not stored |
| `Sharing.ArticleOf` | scripts/share_to_linkedin.py:125-134 | the article has the URL and the severity (LOW when missing); a present title, summary, source or category list is copied; missing title, summary and source become "", and missing categories [] |
| `Sharing.SeverityOf` | scripts/share_to_linkedin.py:126 | the record's severity, LOW when it has none |
| `Sharing.UnsharedEmpty` | scripts/share_to_linkedin.py:106-112 | nothing is left exactly when every cached URL is shared |
| `Sharing.Unshared` | scripts/share_to_linkedin.py:107-110 | exactly the cached URLs not yet shared, each with its cached record |
| `Sharing.Available` | scripts/share_to_linkedin.py:106-115 | the unshared records while there are any, otherwise the whole cache |
| `Sharing.LoadedShared` | scripts/share_to_linkedin.py:77-85 | the `shared_articles` list as a set; the empty set for a missing or malformed file or a missing key |
| `Sharing.ArticleSelector.constructor` | scripts/share_to_linkedin.py:72-75 | the shared set is what the state file holds |
| `Sharing.ArticleSelector.SaveState` | scripts/share_to_linkedin.py:87-93 | the saved state is the shared set and the time |
| `Sharing.FirstPresent` | scripts/share_to_linkedin.py:138-139 | the first severity from a position on whose bucket is non-empty, or none |
| `Sharing.TopRank` | scripts/share_to_linkedin.py:138-145 | the highest severity present, with every higher one absent; or none when no severity is present |
| `Sharing.SomeBucketPresent` | scripts/share_to_linkedin.py:125-143 | when articles are available and every severity is known, some bucket is non-empty |
| `Sharing.TopRankIs` | scripts/share_to_linkedin.py:138-143 | the first non-empty bucket is the top rank |
| `Sharing.BucketEmpty` | scripts/share_to_linkedin.py:139 | a bucket is empty exactly when no available URL has that severity |
| `Sharing.Bucketise` | scripts/share_to_linkedin.py:118-135 | there are exactly four buckets; each holds exactly the available articles of its severity; any other severity raises `KeyError`, naming the severity of some available record |
| `Sharing.ArticleSelector.SelectArticle` | scripts/share_to_linkedin.py:95-145 | missing cache file: none; malformed file: an error; unknown severity: `KeyError` naming the severity of some available record; otherwise an article of the highest severity present, with the set becoming the kept set plus its URL, and that set saved; none and no save when nothing is available |
| `Sharing.ChosenWasNotShared` | scripts/share_to_linkedin.py:106-110 | while some cached URL is unshared, the chosen article is cached and was not shared |
| `Sharing.ResetChoosesOne` | scripts/share_to_linkedin.py:112-115 | when every cached URL is shared, the cache is not empty and every record has one of the four severities, the set is cleared, the whole cache is available and some bucket is non-empty, so an article is chosen (with an unknown severity `KeyError` is raised instead, as `SelectArticle` states) |
| `Sharing.EmptyCacheChoosesNone` | scripts/share_to_linkedin.py:138-145 | an empty cache chooses nothing |
| `Sharing.FallbackMessage` | scripts/share_to_linkedin.py:197-218 | the message starts with the emoji and a space, and the title sits right after the severity's lead text |
| `Sharing.MissingSeverityIsMedium` | scripts/share_to_linkedin.py:199 | a missing severity gives the MEDIUM message |
| `Sharing.UnknownSeverityMessage` | scripts/share_to_linkedin.py:209-218 | an unknown severity gives the MEDIUM text behind the newspaper emoji |
| `Sharing.Generate` | scripts/share_to_linkedin.py:156-195 | the fallback message without a client or when the request raises; otherwise the stripped answer |
| `CommitTitle.CommitMsg` | scripts/extract_commit_msg.py:8-11 | exactly the default message when the file is absent; otherwise the file text stripped |
| `CommitTitle.TitleIsFirstLine` | scripts/extract_commit_msg.py:14 | the title is the message up to its first newline; it holds no newline, it starts the message, and it is the whole message when there is no newline |
| `CommitTitle.Title` | scripts/extract_commit_msg.py:14 | the title holds no newline; `TitleIsFirstLine` states that it is the message up to its first newline |
| `CommitTitle.WrittenMessageReadBack` | scripts/extract_commit_msg.py:8-14 | the message written by scripts/update_news.py reads back unchanged, and its title starts with `auto: ` |
| `Text.SplitJoin` | scripts/extract_commit_msg.py:14 | joining the parts of `split` gives back the text |
| `Text.Split` | scripts/extract_commit_msg.py:14 | there is at least one part; `SplitJoin` and `SplitNoSep` state what the parts are |
| `Text.SplitNoSep` | scripts/extract_commit_msg.py:14 | no part of `split` holds the separator |
| `Text.SplitConcat` | scripts/extract_commit_msg.py:17-23 | splitting at a separator between two texts splits each of them |
| `Text.StripIdempotent` | scripts/extract_commit_msg.py:9 | stripping twice is stripping once |
| `Text.Strip` | scripts/extract_commit_msg.py:9 | the result has no surrounding whitespace and is no longer than the text; `StripExact` states what is removed |
| `Text.StripExact` | scripts/extract_commit_msg.py:9 | stripping removes exactly the surrounding whitespace |
| `CommitTitle.OutputText` | scripts/extract_commit_msg.py:17-23 | the appended text is exactly `message<<'EOF'`, the message, `EOF`, `title<<'EOF'`, the title and `EOF`, each followed by a newline |
| `CommitTitle.OutputBlocks` | scripts/extract_commit_msg.py:17-23 | the two blocks as written; this member has no contract, `OutputText` spells the text out and `AsWrittenNeverCloses` states how it reads back |
| `CommitTitle.BlockLines` | scripts/extract_commit_msg.py:17-23 | the lines of one output block: the header, the value's lines, the closing line |
| `CommitTitle.AsWrittenNeverCloses` | scripts/extract_commit_msg.py:17-23 | as written, the `message` output is never closed, for any message without an `'EOF'` line |
| `CommitTitle.DefaultMessageNeverCloses` | scripts/extract_commit_msg.py:11-23 | as written, the default message's output is never closed |
| `CommitTitle.IntendedRoundTrip` | scripts/extract_commit_msg.py:17-23 | with `EOF` as the declared delimiter, the workflow reads back the message and then the title |
| `CommitTitle.ExtractOutputRoundTrip` | scripts/extract_commit_msg.py:8-23 | the corrected output of the script reads back as the commit message and its first line |
| `CommitTitle.ExtractOutput` | scripts/extract_commit_msg.py:8-23 | the corrected script's output; this member has no contract, `ExtractOutputRoundTrip` states how it reads back |

## Left out

- File and network I/O is left out: feed downloads, the JSON files, the `GITHUB_OUTPUT` handle and directory creation. Loads are `StoredFile` values and saves are the classes' `saved` fields. `json.dumps` formatting and key order are not modelled.
- `render_site` (the Jinja template) and `LinkedInPoster` (an HTTP POST) are not part of this model. Neither affects the state above.
- The text-generation requests are opaque functions. This covers their prompts, the JSON parsing of the answers and the empty-`content` case of `generate`. An answer is text or an exception.
- The clock (`datetime.now`, `isoformat` of the run time) is a string parameter. `published_human` (`strftime`) is left out.
- Environment variables are parameters. This covers the feed list, and whether an API key is set.
- JSON values are typed records. A cached or stored value of the wrong JSON kind is not modelled.
- `Feeds.FetchNews` sorts with a function, not in place. The model keeps Python's stable order. The aliasing of the `NewsItem` objects that `summarise_news` mutates is not modelled: items are values.
- `Sharing.Bucketise`: Python walks the dictionary in insertion order. The model walks the available URLs in an arbitrary order, so when several records have unknown severities, the model says only that the `KeyError` names one of them, not which.
- `Sharing.ArticleSelector.SelectArticle`: `random.choice` is modelled as a free choice in the bucket. The model says nothing about fairness.
- `Pipeline.Refresh` returns the commit message and does not write it. `render_site` is left out as stated above.

## Findings

| source | as written | input that shows it | evidently intended | confidence | as-written member | corrected member |
|---|---|---|---|---|---|---|
| scripts/extract_commit_msg.py:18-23 | The header lines declare the delimiter `'EOF'`, quotes included, but the closing lines are `EOF`. The Actions runner takes the delimiter after `<<` literally, as shell heredocs do not. So no line closes the `message` value, and the step fails. | The default message `chore: refresh cybersecurity brief`, with the file absent; in fact any message without a line `'EOF'` | Declare `EOF` in the header, as the closing lines do. Then the runner reads back the message and the title. | medium; not executed. The runner's parsing is modelled, not observed | `CommitTitle.AsWrittenNeverCloses`, `CommitTitle.DefaultMessageNeverCloses` | `CommitTitle.IntendedRoundTrip`, `CommitTitle.ExtractOutputRoundTrip` |
