/**
 * Client-side helpers of static/js/utils.js: the relative-date text of `formatDate` and the
 * test `setActiveNav` applies to each navigation link.
 *
 * `formatDate` is taken as a function of the difference `now - date` in milliseconds; a date
 * string JavaScript cannot parse makes that difference NaN, written `None` here. The text
 * `toLocaleDateString('ko-KR')` renders is a parameter.
 */
module ClientUtils {
  import opened Base

  const Minute: int := 60000
  const Hour: int := 3600000
  const Day: int := 86400000
  const Week: int := 604800000

  /** Which branch of `formatDate` answers, with the count it shows. */
  datatype Relative = JustNow | MinutesAgo(n: int) | HoursAgo(n: int) | DaysAgo(n: int) | LocaleDate

  /**
   * The thresholds of `formatDate`, checked in order; every comparison with NaN is false, so
   * an unparsable date falls through to the locale date.
   */
  function Bucket(diff: Option<int>): (r: Relative)
    ensures r.JustNow? <==> diff.Some? && diff.value < Minute
    ensures r.MinutesAgo? <==> diff.Some? && Minute <= diff.value < Hour
    ensures r.HoursAgo? <==> diff.Some? && Hour <= diff.value < Day
    ensures r.DaysAgo? <==> diff.Some? && Day <= diff.value < Week
    ensures r.MinutesAgo? ==> 1 <= r.n <= 59 && r.n * Minute <= diff.value < (r.n + 1) * Minute
    ensures r.HoursAgo? ==> 1 <= r.n <= 23 && r.n * Hour <= diff.value < (r.n + 1) * Hour
    ensures r.DaysAgo? ==> 1 <= r.n <= 6 && r.n * Day <= diff.value < (r.n + 1) * Day
    ensures r.LocaleDate? <==> diff.None? || Week <= diff.value
  {
    match diff
    case None => LocaleDate
    case Some(d) =>
      if d < Minute then JustNow
      else if d < Hour then MinutesAgo(d / Minute)
      else if d < Day then HoursAgo(d / Hour)
      else if d < Week then DaysAgo(d / Day)
      else LocaleDate
  }

  /** Buckets in the order time passes. */
  function Rank(r: Relative): int {
    match r
    case JustNow => 0
    case MinutesAgo(_) => 1
    case HoursAgo(_) => 2
    case DaysAgo(_) => 3
    case LocaleDate => 4
  }

  /** An older date never gets a more recent-sounding text, and within a unit the count grows. */
  lemma BucketMonotonic(d1: int, d2: int)
    requires d1 <= d2
    ensures Rank(Bucket(Some(d1))) <= Rank(Bucket(Some(d2)))
    ensures (Rank(Bucket(Some(d1))) == Rank(Bucket(Some(d2))) && Bucket(Some(d1)).MinutesAgo?)
              ==> Bucket(Some(d1)).n <= Bucket(Some(d2)).n
    ensures (Rank(Bucket(Some(d1))) == Rank(Bucket(Some(d2))) && Bucket(Some(d1)).HoursAgo?)
              ==> Bucket(Some(d1)).n <= Bucket(Some(d2)).n
    ensures (Rank(Bucket(Some(d1))) == Rank(Bucket(Some(d2))) && Bucket(Some(d1)).DaysAgo?)
              ==> Bucket(Some(d1)).n <= Bucket(Some(d2)).n
  {
  }

  /** `formatDate(dateString)`, given the difference and the locale rendering of the date. */
  function FormatDate(diff: Option<int>, localeDate: string): (text: string)
    ensures Bucket(diff).JustNow? ==> text == "방금 전"
    ensures Bucket(diff).MinutesAgo? ==> text == NatToString(Bucket(diff).n) + "분 전"
    ensures Bucket(diff).HoursAgo? ==> text == NatToString(Bucket(diff).n) + "시간 전"
    ensures Bucket(diff).DaysAgo? ==> text == NatToString(Bucket(diff).n) + "일 전"
    ensures Bucket(diff).LocaleDate? ==> text == localeDate
  {
    match Bucket(diff)
    case JustNow => "방금 전"
    case MinutesAgo(n) => NatToString(n) + "분 전"
    case HoursAgo(n) => NatToString(n) + "시간 전"
    case DaysAgo(n) => NatToString(n) + "일 전"
    case LocaleDate => localeDate
  }

  /** A date in the future (a negative difference) reads as "just now". */
  lemma FutureIsJustNow(diff: int)
    requires diff < 0
    ensures FormatDate(Some(diff), "") == "방금 전"
  {
  }

  /** The text shows the very count of whole minutes: 90 seconds ago reads "1분 전". */
  lemma NinetySecondsAgo()
    ensures FormatDate(Some(90000), "") == "1분 전"
  {
    assert Bucket(Some(90000)) == MinutesAgo(1);
    assert NatToString(1) == "1";
  }

  /**
   * The test `setActiveNav` applies to one link: its `href` attribute (`None` when the link has
   * none, which JavaScript's `startsWith` reads as the text "null") against the current path.
   */
  function NavActive(href: Option<string>, path: string): (active: bool)
    ensures href == Some("/") ==> (active <==> path == "/")
    ensures (href.Some? && href.value != "/") ==> (active <==> StartsWith(path, href.value))
    ensures href.None? ==> (active <==> StartsWith(path, "null"))
  {
    match href
    case None => StartsWith(path, "null")
    case Some(h) => h == path || (StartsWith(path, h) && h != "/")
  }

  /** The link to "/" is active on the home page only. */
  lemma RootLinkExact(path: string)
    ensures NavActive(Some("/"), path) <==> path == "/"
  {
  }

  /** Any other link is active on its own page and on every path that extends it. */
  lemma SectionLinkCoversSubpaths(h: string, rest: string)
    requires h != "/"
    ensures NavActive(Some(h), h + rest)
  {
    assert (h + rest)[..|h|] == h;
  }

  /** The prefix test ignores path segments: "/material" is active on "/materials". */
  lemma PrefixIgnoresSegments()
    ensures NavActive(Some("/material"), "/materials")
  {
    assert "/materials"[..|"/material"|] == "/material";
  }

  /** A link without an `href` is active only on paths that start with "null". */
  lemma MissingHrefMatchesNull(path: string)
    requires NavActive(None, path)
    ensures |path| >= 4 && path[..4] == "null"
  {
  }
}
