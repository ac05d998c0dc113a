/** `Summariser.summarise` of scripts/update_news.py. */
module Summary {
  import opened Wrappers
  import opened Text
  import opened News

  /** The truncation marker exactly as the source spells it: the UTF-8 bytes
      of an ellipsis read as Windows-1252, three characters long. */
  const Ellipsis: string := "\U{E2}\U{20AC}\U{A6}"
  const SummaryLimit: nat := 280

  /** The text-generation client: absent, or present and answering each item. */
  datatype Summariser = Offline | Online(respond: NewsItem -> Completion)

  /** The text the fallback works from: title and feed summary, stripped. */
  function Snippet(item: NewsItem): (s: string)
    ensures IsStripped(s)
  {
    Strip(item.title + " " + item.summary)
  }

  /** The summary written when no client is configured: the snippet itself
      when it fits in 280 characters, otherwise its first 280 characters
      followed by the marker. */
  function FallbackSummary(item: NewsItem): (r: string)
    ensures var s := Snippet(item);
      && (|s| <= SummaryLimit ==> r == s)
      && (|s| > SummaryLimit ==> |r| == SummaryLimit + |Ellipsis| && r[..SummaryLimit] == s[..SummaryLimit]
                                 && r[SummaryLimit..] == Ellipsis)
    ensures |r| <= SummaryLimit + |Ellipsis|
  {
    var snippet := Snippet(item);
    if |snippet| > SummaryLimit then snippet[..SummaryLimit] + Ellipsis else snippet
  }

  /** One call of `summarise`: the fallback without a client, otherwise the
      reply stripped; a failing request is not caught and propagates. */
  function Summarise(item: NewsItem, summariser: Summariser): (r: Result<string>)
    ensures summariser.Offline? ==> r == Ok(FallbackSummary(item))
    ensures r.Ok? ==> IsStripped(r.value) || summariser.Offline?
    ensures r.Err? <==> summariser.Online? && summariser.respond(item).Raised?
    ensures r.Err? ==> r.error == ApiError
    ensures summariser.Online? && summariser.respond(item).Answered? ==>
      r == Ok(Strip(summariser.respond(item).text))
  {
    match summariser
    case Offline => Ok(FallbackSummary(item))
    case Online(respond) =>
      match respond(item)
      case Answered(text) => Ok(Strip(text))
      case Raised => Err(ApiError)
  }

  /** A long snippet is cut to exactly 280 characters plus the three-character
      marker, so the fallback is never longer than 283 characters, and a short
      one comes through whole. */
  lemma FallbackLength(item: NewsItem)
    ensures |FallbackSummary(item)| == if |Snippet(item)| > SummaryLimit then 283 else |Snippet(item)|
  {
  }
}
