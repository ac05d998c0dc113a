/** The daily brief of scripts/update_news.py: `DailyBrief`, its dictionary
    form, `AgentState`, `BriefingComposer.compose` and the commit message. */
module Briefing {
  import opened Wrappers
  import opened Text
  import opened News

  datatype DailyBrief = DailyBrief(
    headline: string,
    narrative: string,
    keyThemes: seq<string>,
    actionItems: seq<string>)

  /** The JSON object a brief is stored as; `None` is a missing key, and
      `otherKeys` says whether the object holds keys besides these four. */
  datatype BriefDict = BriefDict(
    headline: Option<string>,
    narrative: Option<string>,
    keyThemes: Option<seq<string>>,
    actionItems: Option<seq<string>>,
    otherKeys: bool)

  /** Python falsiness of the object: only `{}` is false. */
  predicate IsEmptyDict(d: BriefDict) {
    d == BriefDict(None, None, None, None, false)
  }

  /** `to_dict`: every field under its own key. */
  function ToDict(b: DailyBrief): (d: BriefDict)
    ensures d.headline == Some(b.headline) && d.narrative == Some(b.narrative)
    ensures d.keyThemes == Some(b.keyThemes) && d.actionItems == Some(b.actionItems)
    ensures !d.otherKeys && !IsEmptyDict(d)
  {
    BriefDict(Some(b.headline), Some(b.narrative), Some(b.keyThemes), Some(b.actionItems), false)
  }

  /** `from_dict`: a missing text defaults to "" and a missing list to []. */
  function FromDict(d: BriefDict): (b: DailyBrief)
    ensures d.headline.None? ==> b.headline == ""
    ensures d.narrative.None? ==> b.narrative == ""
    ensures d.keyThemes.None? ==> b.keyThemes == []
    ensures d.actionItems.None? ==> b.actionItems == []
    ensures d.headline.Some? ==> b.headline == d.headline.value
    ensures d.narrative.Some? ==> b.narrative == d.narrative.value
    ensures d.keyThemes.Some? ==> b.keyThemes == d.keyThemes.value
    ensures d.actionItems.Some? ==> b.actionItems == d.actionItems.value
  {
    DailyBrief(d.headline.GetOr(""), d.narrative.GetOr(""), d.keyThemes.GetOr([]), d.actionItems.GetOr([]))
  }

  lemma BriefRoundTrip(b: DailyBrief)
    ensures FromDict(ToDict(b)) == b
  {
  }

  /** A dictionary holding exactly the four keys comes back unchanged through
      a brief. */
  lemma DictRoundTrip(d: BriefDict)
    requires d.headline.Some? && d.narrative.Some? && d.keyThemes.Some? && d.actionItems.Some?
    requires !d.otherKeys
    ensures ToDict(FromDict(d)) == d
  {
  }

  /** The content of the state file: `latest_brief` and `last_generated_at`. */
  datatype StateData = StateData(latestBrief: Option<BriefDict>, lastGeneratedAt: Option<string>)

  const EmptyState := StateData(None, None)

  class AgentState {
    var data: StateData
    /** The content of the state file after the last `save`, if any happened. */
    var saved: Option<StateData>

    /** `__init__` and `_load`: a missing or malformed file leaves the state empty. */
    constructor (file: StoredFile<StateData>)
      ensures data == (if file.Parsed? then file.content else EmptyState)
      ensures saved == None
    {
      data := if file.Parsed? then file.content else EmptyState;
      saved := None;
    }

    /** The brief of the previous run; an absent `latest_brief`, or `{}`,
        gives none. */
    function PreviousBrief(): (r: Option<DailyBrief>)
      reads this
      ensures r.None? <==> data.latestBrief.None? || IsEmptyDict(data.latestBrief.value)
      ensures r.Some? ==> r.value == FromDict(data.latestBrief.value)
    {
      match data.latestBrief
      case None => None
      case Some(d) => if IsEmptyDict(d) then None else Some(FromDict(d))
    }

    /** Records the brief and the moment of generation, then saves the file;
        the next run's `previous_brief` is this brief. */
    method UpdateBrief(brief: DailyBrief, now: string)
      modifies this
      ensures data == StateData(Some(ToDict(brief)), Some(now))
      ensures saved == Some(data)
      ensures PreviousBrief() == Some(brief)
    {
      data := data.(latestBrief := Some(ToDict(brief)), lastGeneratedAt := Some(now));
      saved := Some(data);
    }
  }

  /** A stored object with none of the four keys but some other key is still
      truthy: the previous brief is then the all-default brief. */
  lemma OtherKeysGiveDefaultBrief(state: AgentState)
    requires state.data.latestBrief == Some(BriefDict(None, None, None, None, true))
    ensures state.PreviousBrief() == Some(DailyBrief("", "", [], []))
  {
  }

  const FallbackHeadline := "Autonomous cybersecurity briefing"
  const FallbackNarrative :=
    "The agent summarised the latest publicly available cybersecurity "
    + "stories and refreshed the site automatically. Configure an "
    + "OPENAI_API_KEY to enable narrative insights."
  const FallbackActions := [
    "Review the highlighted incidents and evaluate exposure.",
    "Share the briefing with the blue team."]

  /** The `source` of every item, in order. */
  function Sources(items: seq<NewsItem>): (r: seq<string>)
    ensures |r| == |items|
    ensures forall k :: 0 <= k < |items| ==> r[k] == items[k].source
  {
    if items == [] then [] else [items[0].source] + Sources(items[1..])
  }

  function Min(a: int, b: int): int {
    if a < b then a else b
  }

  /** The fixed brief: its themes are the sources of at most the first three
      items, in order. */
  function FallbackBrief(items: seq<NewsItem>): (b: DailyBrief)
    ensures b.headline == FallbackHeadline && b.narrative == FallbackNarrative
    ensures |b.keyThemes| == Min(3, |items|)
    ensures forall k :: 0 <= k < |b.keyThemes| ==> b.keyThemes[k] == items[k].source
    ensures b.actionItems == FallbackActions
  {
    DailyBrief(FallbackHeadline, FallbackNarrative, Sources(items[..Min(3, |items|)]), FallbackActions)
  }

  /** The reply of the service to the compose request, as `json.loads` sees it. */
  datatype ComposeReply =
    | RequestRaised            // `responses.create` raised: not caught
    | NotJson                  // JSONDecodeError, TypeError or ValueError: caught
    | JsonObject(d: BriefDict) // parsed into an object
    | JsonNonObject            // parsed, but `from_dict` calls `.get` on a non-dict: not caught

  datatype Composer = NoClient | Client(respond: (seq<NewsItem>, Option<DailyBrief>) -> ComposeReply)

  /** `compose`: the fixed brief without a client or without items, or when the
      reply does not parse; otherwise the brief the reply describes. */
  function Compose(items: seq<NewsItem>, previous: Option<DailyBrief>, composer: Composer): (r: Result<DailyBrief>)
    ensures composer.NoClient? || items == [] ==> r == Ok(FallbackBrief(items))
    ensures r.Err? ==> composer.Client? && items != []
    ensures composer.Client? && items != [] && composer.respond(items, previous).NotJson? ==>
              r == Ok(FallbackBrief(items))
    ensures composer.Client? && items != [] && composer.respond(items, previous).JsonObject? ==>
              r == Ok(FromDict(composer.respond(items, previous).d))
    ensures composer.Client? && items != [] && composer.respond(items, previous).RequestRaised? ==>
              r == Err(ApiError)
    ensures composer.Client? && items != [] && composer.respond(items, previous).JsonNonObject? ==>
              r == Err(AttributeError)
  {
    var fallback := FallbackBrief(items);
    if composer.NoClient? || items == [] then Ok(fallback)
    else
      match composer.respond(items, previous)
      case RequestRaised => Err(ApiError)
      case NotJson => Ok(fallback)
      case JsonObject(d) => Ok(FromDict(d))
      case JsonNonObject => Err(AttributeError)
  }

  const CommitPrefix := "auto: "
  const DefaultCommitSubject := "refresh cybersecurity brief"

  /** `_write_commit_message`: "auto: " and the stripped headline, or the
      default subject when that is empty. */
  function CommitMessage(brief: DailyBrief): (msg: string)
    ensures CommitPrefix <= msg
  {
    var subject := Strip(brief.headline);
    CommitPrefix + if subject != "" then subject else DefaultCommitSubject
  }

  /** The commit message is never just the prefix and has nothing for
      `strip()` to remove, so the title read back from it is itself. */
  lemma CommitMessageStripped(brief: DailyBrief)
    ensures |CommitMessage(brief)| > |CommitPrefix| && IsStripped(CommitMessage(brief))
  {
    var subject := Strip(brief.headline);
    var tail := if subject != "" then subject else DefaultCommitSubject;
    assert CommitMessage(brief) == CommitPrefix + tail;
    PrefixStartsWord();
    if subject == "" {
      DefaultSubjectStripped();
    }
    StrippedAfter(CommitPrefix, tail);
  }

  lemma PrefixStartsWord()
    ensures CommitPrefix != [] && !IsSpace(CommitPrefix[0])
  {
  }

  lemma DefaultSubjectStripped()
    ensures DefaultCommitSubject != [] && IsStripped(DefaultCommitSubject)
  {
  }

  /** After the prefix comes the stripped headline, or the default subject
      when the headline is blank. */
  lemma CommitMessageSubject(brief: DailyBrief)
    ensures Strip(brief.headline) != "" ==> CommitMessage(brief)[|CommitPrefix|..] == Strip(brief.headline)
    ensures Strip(brief.headline) == "" ==> CommitMessage(brief) == CommitPrefix + DefaultCommitSubject
  {
    var subject := Strip(brief.headline);
    if subject != "" {
      assert (CommitPrefix + subject)[|CommitPrefix|..] == subject;
    }
  }
}
