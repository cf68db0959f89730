/**
 * The display helpers of the article card: the badge colour of a category,
 * the badge text, and the relative publication time.  The current time is a
 * parameter instead of `new Date()`.
 */
module ArticleCard {
  import opened Wrappers
  import opened Text
  import opened Schema

  const HOUR_MS: int := 1000 * 60 * 60
  const DAY_MS: int := 24 * HOUR_MS

  const DefaultColor: string := "bg-gray-100 text-gray-800"

  /** The five category names the colour switch knows, lower-case. */
  predicate KnownCategory(s: string) {
    s == "technology" || s == "business" || s == "sports" || s == "entertainment" || s == "health"
  }

  /** `getCategoryColor`: a switch on the lower-cased category. */
  function CategoryColor(category: string): (r: string)
    ensures r == DefaultColor <==> !KnownCategory(Lower(category))
  {
    var c := Lower(category);
    if c == "technology" then "bg-accent text-white"
    else if c == "business" then "bg-blue-100 text-blue-800"
    else if c == "sports" then "bg-green-100 text-green-800"
    else if c == "entertainment" then "bg-purple-100 text-purple-800"
    else if c == "health" then "bg-red-100 text-red-800"
    else DefaultColor
  }

  /** The colour depends only on the lower-cased category. */
  lemma CategoryColorIgnoresCase(category: string)
    ensures CategoryColor(category) == CategoryColor(Lower(category))
  {
    LowerIdempotent(category);
  }

  lemma LowerOfLowerCase(s: string)
    requires forall i :: 0 <= i < |s| ==> !IsUpper(s[i])
    ensures Lower(s) == s
  {
  }

  /** Each category filter other than 'all' gets its own colour, none of them the default. */
  lemma CategoryColorsDistinct(c: CategoryFilter, c': CategoryFilter)
    requires c != All && c' != All
    ensures CategoryColor(c.Name()) != DefaultColor
    ensures CategoryColor(c.Name()) == CategoryColor(c'.Name()) ==> c == c'
  {
    NameIsLowerCase(c);
    NameIsLowerCase(c');
  }

  lemma NameIsLowerCase(c: CategoryFilter)
    ensures Lower(c.Name()) == c.Name()
  {
    var n := c.Name();
    assert forall i :: 0 <= i < |n| ==> !IsUpper(n[i]) by {
      match c
      case All =>
      case Technology =>
      case Business =>
      case Sports =>
      case Entertainment =>
      case Health =>
    }
    LowerOfLowerCase(n);
  }

  /** The badge text: `category.charAt(0).toUpperCase() + category.slice(1)`. */
  function BadgeLabel(category: string): (r: string)
    ensures |r| == |category|
    ensures Lower(r) == Lower(category)
    ensures |r| > 0 ==> !IsLower(r[0]) && r[1..] == category[1..]
  {
    if category == "" then "" else [UpperChar(category[0])] + category[1..]
  }

  /** The badge and its colour agree: capitalising does not change the colour. */
  lemma BadgeKeepsColor(category: string)
    ensures CategoryColor(BadgeLabel(category)) == CategoryColor(category)
  {
  }

  const LessThanAnHour: string := "Less than an hour ago"

  /** `${n} unit${n === 1 ? '' : 's'} ago` */
  function Ago(n: nat, unit: string): string {
    NatToString(n) + " " + unit + (if n == 1 then "" else "s") + " ago"
  }

  /** `formatTimeAgo`: whole hours below a day, whole days from a day on. */
  function FormatTimeAgo(date: int, now: int): (r: string)
    ensures now - date < HOUR_MS <==> r == LessThanAnHour
    ensures HOUR_MS <= now - date < DAY_MS ==>
              1 <= (now - date) / HOUR_MS < 24 && r == Ago((now - date) / HOUR_MS, "hour")
    ensures DAY_MS <= now - date ==>
              1 <= (now - date) / DAY_MS && r == Ago((now - date) / DAY_MS, "day")
  {
    var diffInHours := (now - date) / HOUR_MS;
    HourBuckets(now - date);
    if diffInHours < 1 then LessThanAnHour
    else if diffInHours < 24 then AgoStartsWithDigit(diffInHours, "hour"); Ago(diffInHours, "hour")
    else
      var diffInDays := diffInHours / 24;
      AgoStartsWithDigit(diffInDays, "day");
      Ago(diffInDays, "day")
  }

  /** The hour count decides the bucket, and whole days are whole hours over 24. */
  lemma HourBuckets(e: int)
    ensures e / HOUR_MS < 1 <==> e < HOUR_MS
    ensures e / HOUR_MS < 24 <==> e < DAY_MS
    ensures (e / HOUR_MS) / 24 == e / DAY_MS
  {
    var h := e / HOUR_MS;
    WholeUnits(e, HOUR_MS);
    WholeUnits(h, 24);
    WholeUnits(e, DAY_MS);
  }

  lemma AgoStartsWithDigit(n: nat, unit: string)
    ensures IsDigit(Ago(n, unit)[0])
  {
    assert Ago(n, unit)[0] == NatToString(n)[0];
  }

  /** What a relative-time text says. */
  datatype Elapsed = UnderAnHour | Hours(hours: nat) | Days(days: nat)

  /** The number of decimal digits `s` starts with. */
  function LeadingDigits(s: string): (k: nat)
    ensures k <= |s| && AllDigits(s[..k])
    ensures k < |s| ==> !IsDigit(s[k])
  {
    if s == [] || !IsDigit(s[0]) then 0
    else
      var k := 1 + LeadingDigits(s[1..]);
      assert s[..k] == [s[0]] + s[1..][..k - 1];
      k
  }

  /** The unit words with the English plural: "1 hour", "2 hours". */
  function UnitSuffix(n: nat, unit: string): string {
    if n == 1 then " " + unit + " ago" else " " + unit + "s ago"
  }

  /**
   * Reads a relative-time text back, accepting the singular only for a count
   * of one and the plural only for any other count.
   */
  function ReadTimeAgo(text: string): Option<Elapsed> {
    if text == LessThanAnHour then Some(UnderAnHour)
    else
      var k := LeadingDigits(text);
      if k == 0 then None
      else
        var n := DigitsValue(text[..k]);
        if text[k..] == UnitSuffix(n, "hour") then Some(Hours(n))
        else if text[k..] == UnitSuffix(n, "day") then Some(Days(n))
        else None
  }

  lemma {:induction false} LeadingDigitsOf(d: string, t: string)
    requires AllDigits(d)
    requires t == [] || !IsDigit(t[0])
    ensures LeadingDigits(d + t) == |d|
  {
    if d != [] {
      assert (d + t)[1..] == d[1..] + t;
      LeadingDigitsOf(d[1..], t);
    } else {
      assert d + t == t;
    }
  }

  /** An "n unit(s) ago" text splits into the digits of n and the unit words. */
  lemma AgoParts(n: nat, unit: string)
    ensures var text, k := Ago(n, unit), |NatToString(n)|;
      && text != LessThanAnHour
      && LeadingDigits(text) == k
      && text[..k] == NatToString(n)
      && text[k..] == UnitSuffix(n, unit)
  {
    var digits := NatToString(n);
    var suffix := UnitSuffix(n, unit);
    var text := Ago(n, unit);
    assert text == digits + suffix;
    AgoStartsWithDigit(n, unit);
    assert text != LessThanAnHour by {
      assert LessThanAnHour[0] == 'L';
    }
    assert suffix[0] == ' ';
    LeadingDigitsOf(digits, suffix);
    assert text[..|digits|] == digits;
    assert text[|digits|..] == suffix;
  }

  lemma ReadAgo(n: nat, unit: string)
    requires unit == "hour" || unit == "day"
    ensures ReadTimeAgo(Ago(n, unit)) == Some(if unit == "hour" then Hours(n) else Days(n))
  {
    var text, k := Ago(n, unit), |NatToString(n)|;
    AgoParts(n, unit);
    NatToStringRoundTrip(n);
    assert DigitsValue(text[..k]) == n;
    if unit == "day" {
      assert UnitSuffix(n, "hour")[1] == 'h' && UnitSuffix(n, "day")[1] == 'd';
    }
  }

  /**
   * The relative time is unambiguous and correct: reading it back gives "under
   * an hour", the whole hours elapsed (below a day) or the whole days elapsed,
   * with "hour"/"day" exactly when the count is one.
   */
  lemma TimeAgoReadsBack(date: int, now: int)
    ensures ReadTimeAgo(FormatTimeAgo(date, now)) ==
              if now - date < HOUR_MS then Some(UnderAnHour)
              else if now - date < DAY_MS then Some(Hours((now - date) / HOUR_MS))
              else Some(Days((now - date) / DAY_MS))
  {
    var e := now - date;
    var text := FormatTimeAgo(date, now);
    if e < HOUR_MS {
      assert text == LessThanAnHour;
    } else if e < DAY_MS {
      assert text == Ago(e / HOUR_MS, "hour");
      ReadAgo(e / HOUR_MS, "hour");
    } else {
      assert text == Ago(e / DAY_MS, "day");
      ReadAgo(e / DAY_MS, "day");
    }
  }

  lemma WholeUnits(e: int, unit: int)
    requires unit > 0
    ensures (e / unit) * unit <= e < (e / unit + 1) * unit
  {
  }

  /** A count read back is the number of whole units elapsed. */
  lemma ElapsedIsWholeUnits(date: int, now: int)
    ensures var e := now - date;
      match ReadTimeAgo(FormatTimeAgo(date, now))
      case Some(UnderAnHour) => e < HOUR_MS
      case Some(Hours(h)) => 1 <= h < 24 && h * HOUR_MS <= e < (h + 1) * HOUR_MS
      case Some(Days(d)) => 1 <= d && d * DAY_MS <= e < (d + 1) * DAY_MS
      case None => false
  {
    var e := now - date;
    TimeAgoReadsBack(date, now);
    if HOUR_MS <= e < DAY_MS {
      var h := e / HOUR_MS;
      assert ReadTimeAgo(FormatTimeAgo(date, now)) == Some(Hours(h));
      WholeUnits(e, HOUR_MS);
    } else if DAY_MS <= e {
      var d := e / DAY_MS;
      assert ReadTimeAgo(FormatTimeAgo(date, now)) == Some(Days(d));
      WholeUnits(e, DAY_MS);
    }
  }
}
