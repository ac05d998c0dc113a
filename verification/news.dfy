/** The values that flow through the news pipeline: publication moments,
    news items, and the JSON records kept in the URL-keyed cache. */
module News {
  import opened Wrappers

  /** A UTC moment as `datetime(*published_parsed[:6], tzinfo=utc)` builds it:
      the first six fields of the feed's time tuple. */
  datatype Timestamp = Timestamp(year: nat, month: nat, day: nat, hour: nat, minute: nat, second: nat)

  predicate IsLeapYear(y: int) {
    y % 4 == 0 && (y % 100 != 0 || y % 400 == 0)
  }

  function DaysInMonth(y: int, m: int): int
    requires 1 <= m <= 12
  {
    if m == 2 then (if IsLeapYear(y) then 29 else 28)
    else if m == 4 || m == 6 || m == 9 || m == 11 then 30
    else 31
  }

  /** The field ranges `datetime(...)` accepts; outside them it raises ValueError. */
  predicate ValidTimestamp(t: Timestamp) {
    && 1 <= t.year <= 9999
    && 1 <= t.month <= 12
    && 1 <= t.day <= DaysInMonth(t.year, t.month)
    && 0 <= t.hour <= 23
    && 0 <= t.minute <= 59
    && 0 <= t.second <= 59
  }

  /** Chronological order of two datetimes: field by field, most significant first. */
  predicate Earlier(a: Timestamp, b: Timestamp) {
    || a.year < b.year
    || (a.year == b.year && a.month < b.month)
    || (a.year == b.year && a.month == b.month && a.day < b.day)
    || (a.year == b.year && a.month == b.month && a.day == b.day && a.hour < b.hour)
    || (a.year == b.year && a.month == b.month && a.day == b.day && a.hour == b.hour && a.minute < b.minute)
    || (a.year == b.year && a.month == b.month && a.day == b.day && a.hour == b.hour && a.minute == b.minute
        && a.second < b.second)
  }

  lemma EarlierIsStrictTotalOrder(a: Timestamp, b: Timestamp, c: Timestamp)
    ensures !Earlier(a, a)
    ensures Earlier(a, b) && Earlier(b, c) ==> Earlier(a, c)
    ensures a != b ==> Earlier(a, b) || Earlier(b, a)
  {
  }

  /** The decimal digits of `n`, zero-padded to `width`, as `%0<width>d` writes them. */
  function Digits(n: nat, width: nat): (s: string)
    ensures |s| == width
    ensures forall k :: 0 <= k < |s| ==> '0' <= s[k] <= '9'
  {
    if width == 0 then "" else Digits(n / 10, width - 1) + [('0' as int + n % 10) as char]
  }

  function Power10(width: nat): nat {
    if width == 0 then 1 else 10 * Power10(width - 1)
  }

  /** Reads back a run of decimal digits. */
  function DigitsValue(s: string): nat {
    if s == [] then 0
    else
      var d := s[|s| - 1] as int - '0' as int;
      10 * DigitsValue(s[..|s| - 1]) + (if 0 <= d <= 9 then d else 0)
  }

  lemma {:induction false} DigitsRoundTrip(n: nat, width: nat)
    requires n < Power10(width)
    ensures DigitsValue(Digits(n, width)) == n
  {
    if width > 0 {
      var s := Digits(n, width);
      var d := n % 10;
      assert s == Digits(n / 10, width - 1) + [('0' as int + d) as char];
      assert s[..|s| - 1] == Digits(n / 10, width - 1);
      assert s[|s| - 1] as int - '0' as int == d;
      DropLastDigit(n, Power10(width - 1));
      DigitsRoundTrip(n / 10, width - 1);
      assert DigitsValue(s) == 10 * (n / 10) + d;
    }
  }

  lemma DropLastDigit(n: nat, p: nat)
    requires n < 10 * p
    ensures n / 10 < p && n == 10 * (n / 10) + n % 10
  {
  }

  /** `datetime.isoformat()` of an aware UTC datetime without microseconds. */
  function IsoFormat(t: Timestamp): (s: string)
    ensures |s| == 25
    ensures s[4] == '-' && s[7] == '-' && s[10] == 'T' && s[13] == ':' && s[16] == ':'
    ensures s[19..] == "+00:00"
  {
    Digits(t.year, 4) + "-" + Digits(t.month, 2) + "-" + Digits(t.day, 2) + "T"
    + Digits(t.hour, 2) + ":" + Digits(t.minute, 2) + ":" + Digits(t.second, 2) + "+00:00"
  }

  /** Reads the fields back out of an ISO string of the shape above. */
  function ParseIso(s: string): Timestamp
    requires |s| == 25
  {
    Timestamp(DigitsValue(s[0..4]), DigitsValue(s[5..7]), DigitsValue(s[8..10]),
              DigitsValue(s[11..13]), DigitsValue(s[14..16]), DigitsValue(s[17..19]))
  }

  /** The cached `published` string determines the moment it was written from. */
  lemma IsoFormatRoundTrip(t: Timestamp)
    requires ValidTimestamp(t)
    ensures ParseIso(IsoFormat(t)) == t
  {
    var s := IsoFormat(t);
    assert s[0..4] == Digits(t.year, 4);
    assert s[5..7] == Digits(t.month, 2);
    assert s[8..10] == Digits(t.day, 2);
    assert s[11..13] == Digits(t.hour, 2);
    assert s[14..16] == Digits(t.minute, 2);
    assert s[17..19] == Digits(t.second, 2);
    assert Power10(2) == 100 && Power10(4) == 10000;
    DigitsRoundTrip(t.year, 4);
    DigitsRoundTrip(t.month, 2);
    DigitsRoundTrip(t.day, 2);
    DigitsRoundTrip(t.hour, 2);
    DigitsRoundTrip(t.minute, 2);
    DigitsRoundTrip(t.second, 2);
  }

  /** A normalised feed item (the `NewsItem` dataclass). */
  datatype NewsItem = NewsItem(
    title: string,
    link: string,
    published: Timestamp,
    source: string,
    summary: string,
    categories: seq<string>,
    image: string)

  /** One value of the cache file: a JSON object, of which only the keys the
      scripts read are modelled; `None` is a missing key, and `otherKeys`
      says whether the object holds keys besides these. */
  datatype Entry = Entry(
    title: Option<string>,
    summary: Option<string>,
    published: Option<string>,
    source: Option<string>,
    categories: Option<seq<string>>,
    image: Option<string>,
    severity: Option<string>,
    otherKeys: bool)

  /** Python truthiness of the object: an empty dict is false. */
  predicate IsTruthy(e: Entry) {
    e != Entry(None, None, None, None, None, None, None, false)
  }

  /** A JSON file read at start-up: absent, unparsable, or parsed into a value. */
  datatype StoredFile<T> = Missing | Malformed | Parsed(content: T)

  /** The reply of the external text-generation service to one request. */
  datatype Completion = Answered(text: string) | Raised
}
