/** `extract_image_from_entry` of scripts/update_news.py and the feed-entry
    shape it reads. */
module Images {
  import opened Wrappers

  datatype Media = Media(medium: Option<string>, mediaType: Option<string>, url: Option<string>)
  datatype Thumbnail = Thumbnail(url: Option<string>)
  datatype Enclosure = Enclosure(encType: Option<string>, href: Option<string>)
  datatype ContentPart = ContentPart(value: Option<string>)

  /** The position of the first element satisfying `p`, or `|s|` when none does. */
  function FirstWhere<T>(s: seq<T>, p: T -> bool): (i: nat)
    ensures i <= |s|
    ensures forall k :: 0 <= k < i ==> !p(s[k])
    ensures i < |s| ==> p(s[i])
  {
    if s == [] then 0 else if p(s[0]) then 0 else 1 + FirstWhere(s[1..], p)
  }

  predicate IsImageMedia(m: Media) {
    m.medium == Some("image") || "image/" <= m.mediaType.GetOr("")
  }

  predicate IsImageEnclosure(e: Enclosure) {
    "image/" <= e.encType.GetOr("")
  }

  /** The case folding `re.IGNORECASE` applies to the letters of `<img` and
      `src=`: ASCII upper case, and the dotted and dotless i and the long s. */
  function Fold(c: char): char {
    if 'A' <= c <= 'Z' then (c as int + 32) as char
    else if c == '\U{130}' || c == '\U{131}' then 'i'
    else if c == '\U{17F}' then 's'
    else c
  }

  /** `lit` (lower case) occurs at position `i` of `s`, ignoring case. */
  predicate LiteralAt(s: string, i: nat, lit: string) {
    i + |lit| <= |s| && forall k :: 0 <= k < |lit| ==> Fold(s[i + k]) == lit[k]
  }

  predicate IsQuote(c: char) {
    c == '"' || c == '\''
  }

  predicate IsTagEnd(c: char) {
    c == '>'
  }

  /** `FirstWhere` is the position of the first element satisfying `p`. */
  lemma FirstWhereIs<T>(s: seq<T>, p: T -> bool, i: nat)
    requires i < |s| && p(s[i]) && forall k :: 0 <= k < i ==> !p(s[k])
    ensures FirstWhere(s, p) == i
  {
  }

  /** The tail `src=["']([^"']+)["']` of the pattern matched at `p`, with its group. */
  function SrcAt(s: string, p: nat): (r: Option<string>)
    ensures r.Some? ==> r.value != [] && forall k :: 0 <= k < |r.value| ==> !IsQuote(r.value[k])
    ensures r.Some? ==> p + 5 + |r.value| < |s| && s[p + 5..p + 5 + |r.value|] == r.value
                        && IsQuote(s[p + 4]) && IsQuote(s[p + 5 + |r.value|])
  {
    if LiteralAt(s, p, "src=") && p + 4 < |s| && IsQuote(s[p + 4]) then
      var q := p + 5;
      var e := q + FirstWhere(s[q..], IsQuote);
      if q < e < |s| then Some(s[q..e]) else None
    else None
  }

  /** The greedy `[^>]+` before `src=`: the last position `p` in `lo..hi`
      where the tail matches. */
  function LastSrc(s: string, lo: nat, hi: nat): (r: Option<string>)
    ensures r.Some? ==> r.value != [] && forall k :: 0 <= k < |r.value| ==> !IsQuote(r.value[k])
    decreases hi
  {
    if hi < lo then None
    else match SrcAt(s, hi)
      case Some(g) => Some(g)
      case None => if hi == 0 then None else LastSrc(s, lo, hi - 1)
  }

  /** The pattern `<img[^>]+src=["']([^"']+)["']` matched at position `i`. */
  function ImgAt(s: string, i: nat): (r: Option<string>)
    ensures r.Some? ==> r.value != [] && forall k :: 0 <= k < |r.value| ==> !IsQuote(r.value[k])
    ensures r.Some? ==> LiteralAt(s, i, "<img")
  {
    if LiteralAt(s, i, "<img") then
      var k := i + 4;
      var gt := k + FirstWhere(s[k..], IsTagEnd);
      LastSrc(s, k + 1, gt)
    else None
  }

  /** `re.search(...)` of the pattern from position `i` on: the group of the
      match that starts earliest. */
  function SearchImg(s: string, i: nat): (r: Option<string>)
    ensures r.Some? ==> r.value != [] && forall k :: 0 <= k < |r.value| ==> !IsQuote(r.value[k])
    decreases |s| - i
  {
    if i >= |s| then None
    else match ImgAt(s, i)
      case Some(g) => Some(g)
      case None => SearchImg(s, i + 1)
  }

  function FirstImgSrc(html: string): (r: Option<string>)
    ensures r.Some? ==> r.value != [] && forall k :: 0 <= k < |r.value| ==> !IsQuote(r.value[k])
  {
    SearchImg(html, 0)
  }

  /** The greedy scan finds the last position up to `hi` where the tail
      matches. */
  lemma {:induction false} LastSrcIs(s: string, lo: nat, p: nat, hi: nat, g: string)
    requires lo <= p <= hi && SrcAt(s, p) == Some(g)
    requires forall q :: p < q <= hi ==> SrcAt(s, q) == None
    ensures LastSrc(s, lo, hi) == Some(g)
    decreases hi
  {
    if p < hi {
      LastSrcIs(s, lo, p, hi - 1, g);
    }
  }

  const UpperTag := "<IMG src='a'>"

  lemma UpperTagOpens()
    ensures LiteralAt(UpperTag, 0, "<img") && FirstWhere(UpperTag[4..], IsTagEnd) == 8
  {
    FirstWhereIs(UpperTag[4..], IsTagEnd, 8);
  }

  lemma UpperTagSrc()
    ensures SrcAt(UpperTag, 5) == Some("a")
  {
    assert LiteralAt(UpperTag, 5, "src=") && IsQuote(UpperTag[9]);
    FirstWhereIs(UpperTag[10..], IsQuote, 1);
    assert UpperTag[10..11] == "a";
  }

  lemma UpperTagNoLaterSrc()
    ensures forall q :: 5 < q <= 12 ==> SrcAt(UpperTag, q) == None
  {
    forall q | 5 < q <= 12
      ensures SrcAt(UpperTag, q) == None
    {
      if q < 12 {
        assert Fold(UpperTag[q]) != 's';
      }
    }
  }

  /** The search finds the source of an upper-case tag. */
  lemma FindsUpperCaseTag()
    ensures FirstImgSrc(UpperTag) == Some("a")
  {
    UpperTagOpens();
    UpperTagSrc();
    UpperTagNoLaterSrc();
    LastSrcIs(UpperTag, 5, 5, 12, "a");
    assert ImgAt(UpperTag, 0) == Some("a");
  }

  /** A text without `<img` (in any case) yields no image. */
  lemma {:induction false} NoImgTagNoImage(s: string, i: nat)
    requires forall j :: i <= j < |s| ==> !LiteralAt(s, j, "<img")
    ensures SearchImg(s, i) == None
    decreases |s| - i
  {
    if i < |s| {
      NoImgTagNoImage(s, i + 1);
    }
  }
}
