/** The "On This Day" page: the list of same-day dates in past years, the
    sequential fetch that splits responses into records and a failure count,
    the newest-first sort, and the choice of what the page shows.
    The clock is replaced by the current year, month and day; each request's
    outcome comes from `transport`, and `parse` stands for the JSON parser. */
module OnThisDay {
  import opened Wrappers
  import Text
  import opened NasaApod

  // ------------------------------------------------------------ date list

  /** The service's first year of data: `getYear(new Date('1995-06-20'))`. */
  const InceptionYear := 1995
  const FloorYear := 1996

  /** `Math.max` on two integers. */
  function Max(a: int, b: int): (r: int)
    ensures r >= a && r >= b
    ensures r == a || r == b
  {
    if a < b then b else a
  }

  /** `startYear`: the larger of the floor and the inception year, which is
      the floor, past the inception year. */
  function StartYear(): (y: int)
    ensures y == FloorYear && y > InceptionYear
  {
    Max(FloorYear, InceptionYear)
  }

  /** The guard that would skip 1995 before the inception day (June 20). It
      can only hold of a year before the start year. */
  predicate SkipsYear(year: int, month: nat, day: nat): (b: bool)
    ensures b ==> year == InceptionYear && year < StartYear()
  {
    year == 1995 && (month < 6 || (month == 6 && day < 20))
  }

  /** `${year}-${pad2(month)}-${pad2(day)}`. */
  function FormatDate(year: nat, month: nat, day: nat): string {
    Text.NatToString(year) + "-" + Text.Pad2(month) + "-" + Text.Pad2(day)
  }

  /** The number of past years from currentYear - 1 down to the start year. */
  function YearCount(currentYear: int): nat {
    if currentYear - 1 >= StartYear() then currentYear - StartYear() else 0
  }

  /** The intended list: entry i is the same month and day in year currentYear - 1 - i. */
  function DateList(currentYear: int, month: nat, day: nat): (dates: seq<string>)
    ensures |dates| == YearCount(currentYear)
  {
    seq(YearCount(currentYear), i requires 0 <= i < YearCount(currentYear) =>
      FormatDate(currentYear - 1 - i, month, day))
  }

  /** The loop that fills `datesToFetch`, year by year downwards. Every year it
      visits is at least the start year, so the 1995 guard never skips one. */
  method DatesToFetch(currentYear: int, month: nat, day: nat) returns (datesToFetch: seq<string>)
    ensures datesToFetch == DateList(currentYear, month, day)
  {
    datesToFetch := [];
    var year := currentYear - 1;
    while year >= StartYear()
      invariant year == currentYear - 1 || year >= StartYear() - 1
      invariant |datesToFetch| == currentYear - 1 - year <= YearCount(currentYear)
      invariant datesToFetch == DateList(currentYear, month, day)[..|datesToFetch|]
      decreases year
    {
      if !SkipsYear(year, month, day) {
        datesToFetch := datesToFetch + [FormatDate(year, month, day)];
      }
      year := year - 1;
    }
  }

  /** One entry per year from currentYear - 1 down to 1996: none when
      currentYear - 1 is below 1996. */
  lemma {:induction false} DateListLength(currentYear: int, month: nat, day: nat)
    ensures StartYear() == 1996
    ensures |DateList(currentYear, month, day)| == if currentYear - 1 >= 1996 then currentYear - 1996 else 0
  {
  }

  /** Entry i is for year currentYear - 1 - i, so the years strictly decrease;
      none is below 1996, so none is a year the 1995 guard skips. */
  lemma {:induction false} DateListEntry(currentYear: int, month: nat, day: nat, i: nat)
    requires i < |DateList(currentYear, month, day)|
    ensures currentYear - 1 - i >= 1996
    ensures !SkipsYear(currentYear - 1 - i, month, day)
    ensures DateList(currentYear, month, day)[i] == FormatDate(currentYear - 1 - i, month, day)
  {
  }

  /** Where the parts of "Y-M-D" sit when the year has four characters and
      month and day two each. */
  lemma {:induction false} DashedLayout(y: string, m: string, d: string)
    requires |y| == 4 && |m| == 2 && |d| == 2
    ensures var s := y + "-" + m + "-" + d;
      && |s| == 10 && s[4] == '-' && s[7] == '-'
      && s[..4] == y && s[5..7] == m && s[8..] == d
  {
  }

  /** For a real month and day and a four-digit year, an entry is ten
      characters, YYYY-MM-DD, and its three numeric parts read back as the
      year, the month and the day. */
  lemma {:induction false} FormatDateShape(year: nat, month: nat, day: nat)
    requires 1000 <= year <= 9999 && 1 <= month <= 12 && 1 <= day <= 31
    ensures var s := FormatDate(year, month, day);
      && |s| == 10 && s[4] == '-' && s[7] == '-'
      && Text.IsDigits(s[..4]) && Text.DigitsValue(s[..4]) == year
      && Text.IsDigits(s[5..7]) && Text.DigitsValue(s[5..7]) == month
      && Text.IsDigits(s[8..]) && Text.DigitsValue(s[8..]) == day
  {
    Text.NatToStringFourDigits(year);
    Text.NatToStringRoundTrip(year);
    Text.Pad2RoundTrip(month);
    Text.Pad2RoundTrip(day);
    DashedLayout(Text.NatToString(year), Text.Pad2(month), Text.Pad2(day));
  }

  /** A date is its year followed by "-MM-DD". */
  lemma {:induction false} FormatDateSplit(year: nat, month: nat, day: nat)
    ensures FormatDate(year, month, day) == Text.NatToString(year) + ("-" + Text.Pad2(month) + "-" + Text.Pad2(day))
  {
  }

  /** A string made of a year followed by "-" + m + "-" + d, with m and d
      two characters each, ends in those six characters. */
  lemma {:induction false} SuffixAfterYear(s: string, y: string, m: string, d: string)
    requires |m| == 2 && |d| == 2
    requires s == y + ("-" + m + "-" + d)
    ensures |s| >= 6 && s[|s| - 6..] == "-" + m + "-" + d
  {
    var t := "-" + m + "-" + d;
    assert |t| == 6;
    assert s[|y|..] == t;
  }

  /** With month and day below 100, a date ends in "-MM-DD". */
  lemma {:induction false} FormatDateSuffix(year: nat, month: nat, day: nat)
    requires month < 100 && day < 100
    ensures var s := FormatDate(year, month, day);
      |s| >= 6 && s[|s| - 6..] == "-" + Text.Pad2(month) + "-" + Text.Pad2(day)
  {
    FormatDateSplit(year, month, day);
    Text.Pad2Length(month);
    Text.Pad2Length(day);
    SuffixAfterYear(FormatDate(year, month, day), Text.NatToString(year), Text.Pad2(month), Text.Pad2(day));
  }

  /** Every entry ends in the same "-MM-DD": only the year differs. */
  lemma {:induction false} SameMonthDay(currentYear: int, month: nat, day: nat, i: nat)
    requires 1 <= month <= 12 && 1 <= day <= 31
    requires i < |DateList(currentYear, month, day)|
    ensures var s := DateList(currentYear, month, day)[i];
      |s| >= 6 && s[|s| - 6..] == "-" + Text.Pad2(month) + "-" + Text.Pad2(day)
  {
    var year := currentYear - 1 - i;
    DateListEntry(currentYear, month, day, i);
    assert DateList(currentYear, month, day)[i] == FormatDate(year, month, day);
    FormatDateSuffix(year, month, day);
  }

  predicate IsLeapYear(year: int) {
    year % 4 == 0 && (year % 100 != 0 || year % 400 == 0)
  }

  /** No calendar check: on February 29 every entry is "YYYY-02-29", leap
      year or not. */
  lemma {:induction false} LeapDayNotRolled(currentYear: int, i: nat)
    requires i < |DateList(currentYear, 2, 29)|
    ensures var s := DateList(currentYear, 2, 29)[i];
      s == Text.NatToString(currentYear - 1 - i) + "-02-29"
  {
    DateListEntry(currentYear, 2, 29, i);
    FormatDateSplit(currentYear - 1 - i, 2, 29);
    assert Text.Pad2(2) == "02" by {
      assert Text.NatToString(2) == "2";
    }
    assert Text.Pad2(29) == "29" by {
      assert Text.NatToString(29) == "29";
    }
  }

  /** For instance, on 2024-02-29 the list asks for 2023-02-29, a day that
      does not exist. */
  lemma LeapDayExample()
    ensures DateList(2024, 2, 29)[0] == "2023-02-29"
    ensures !IsLeapYear(2023)
  {
    DateListLength(2024, 2, 29);
    LeapDayNotRolled(2024, 0);
    assert DateList(2024, 2, 29)[0] == Text.NatToString(2023) + "-02-29";
    assert Text.NatToString(2) == "2";
    assert Text.NatToString(20) == "2" + "0";
    assert Text.NatToString(202) == "20" + "2";
    assert Text.NatToString(2023) == "202" + "3";
  }

  // ------------------------------------------------------ fetch and split

  /** The responses, one per date, in order. */
  /** `fetchApod` as the page calls it: a date goes to the transport, and the
      outcome through the classification ladder. */
  function Client(transport: string -> Transport, parse: string -> Option<Json>): string -> ApodResponse {
    date => FetchApod(transport(date), parse)
  }

  function Fetched(dates: seq<string>, fetch: string -> ApodResponse): (rs: seq<ApodResponse>)
    ensures |rs| == |dates|
  {
    seq(|dates|, i requires 0 <= i < |dates| => fetch(dates[i]))
  }

  /** The records among the responses, in response order. */
  function Successes(rs: seq<ApodResponse>): seq<ApodData> {
    if rs == [] then []
    else Successes(rs[..|rs| - 1]) + (if rs[|rs| - 1].Found? then [rs[|rs| - 1].data] else [])
  }

  /** The number of error values among the responses. */
  function FailureCount(rs: seq<ApodResponse>): nat {
    if rs == [] then 0
    else FailureCount(rs[..|rs| - 1]) + (if rs[|rs| - 1].Failed? then 1 else 0)
  }

  /** Each response is either kept or counted. */
  lemma {:induction false} SuccessesPlusFailures(rs: seq<ApodResponse>)
    ensures |Successes(rs)| + FailureCount(rs) == |rs|
  {
    if rs != [] {
      SuccessesPlusFailures(rs[..|rs| - 1]);
    }
  }

  /** A record is kept exactly when some response is that record. */
  lemma {:induction false} SuccessesAreTheRecords(rs: seq<ApodResponse>, d: ApodData)
    ensures d in Successes(rs) <==> Found(d) in rs
  {
    if rs != [] {
      var init := rs[..|rs| - 1];
      SuccessesAreTheRecords(init, d);
      assert rs == init + [rs[|rs| - 1]];
    }
  }

  /** The failure count is positive exactly when some response is an error. */
  lemma {:induction false} FailureCountPositive(rs: seq<ApodResponse>)
    ensures FailureCount(rs) > 0 <==> exists i :: 0 <= i < |rs| && rs[i].Failed?
  {
    if rs != [] {
      var init := rs[..|rs| - 1];
      FailureCountPositive(init);
      assert forall i :: 0 <= i < |init| ==> init[i] == rs[i];
    }
  }

  /** The fetch loop: one request per date in list order; records are pushed
      onto `apodResults`, errors increase `failedCount`. */
  method CollectResults(dates: seq<string>, fetch: string -> ApodResponse)
    returns (apodResults: seq<ApodData>, failedCount: nat)
    ensures apodResults == Successes(Fetched(dates, fetch))
    ensures failedCount == FailureCount(Fetched(dates, fetch))
    ensures |apodResults| + failedCount == |dates|
  {
    apodResults, failedCount := [], 0;
    var i := 0;
    while i < |dates|
      invariant 0 <= i <= |dates|
      invariant apodResults == Successes(Fetched(dates[..i], fetch))
      invariant failedCount == FailureCount(Fetched(dates[..i], fetch))
      invariant |apodResults| + failedCount == i
    {
      var result := fetch(dates[i]);
      assert Fetched(dates[..i + 1], fetch)[..i] == Fetched(dates[..i], fetch);
      if !IsApodError(result) {
        apodResults := apodResults + [result.data];
      } else {
        failedCount := failedCount + 1;
      }
      i := i + 1;
    }
    assert dates[..i] == dates;
  }

  // ----------------------------------------------------------------- sort

  /** Lexicographic order on date strings; for YYYY-MM-DD strings it is
      the chronological order. */
  predicate Before(a: string, b: string) {
    if b == [] then false
    else if a == [] then true
    else if a[0] != b[0] then a[0] < b[0]
    else Before(a[1..], b[1..])
  }

  lemma {:induction false} BeforeIrreflexive(a: string)
    ensures !Before(a, a)
  {
    if a != [] {
      BeforeIrreflexive(a[1..]);
    }
  }

  lemma {:induction false} BeforeAsymmetric(a: string, b: string)
    requires Before(a, b)
    ensures !Before(b, a)
  {
    if a != [] && b != [] && a[0] == b[0] {
      BeforeAsymmetric(a[1..], b[1..]);
    }
  }

  lemma {:induction false} BeforeTotal(a: string, b: string)
    requires a != b
    ensures Before(a, b) || Before(b, a)
  {
    if a != [] && b != [] && a[0] == b[0] {
      assert a == [a[0]] + a[1..] && b == [b[0]] + b[1..];
      BeforeTotal(a[1..], b[1..]);
    }
  }

  lemma {:induction false} BeforeTransitive(a: string, b: string, c: string)
    requires Before(a, b) && Before(b, c)
    ensures Before(a, c)
  {
    if a != [] && a[0] == b[0] && b[0] == c[0] {
      BeforeTransitive(a[1..], b[1..], c[1..]);
    }
  }

  /** "Not older": the order the sort leaves neighbours in. */
  lemma NotBeforeTransitive(a: string, b: string, c: string)
    requires !Before(a, b) && !Before(b, c)
    ensures !Before(a, c)
  {
    if Before(a, c) {
      if a == b {
        assert false;
      } else if b == c {
        assert false;
      } else {
        BeforeTotal(a, b);
        BeforeTotal(b, c);
        BeforeTransitive(c, b, a);
        BeforeAsymmetric(c, a);
      }
    }
  }

  /** Newest first: no record is older than one after it. */
  predicate NewestFirst(s: seq<ApodData>) {
    forall k, l :: 0 <= k < l < |s| ==> !Before(s[k].date, s[l].date)
  }

  /** Removing the same part from two equal sums leaves equal multisets. */
  lemma MultisetCancel<T>(x: multiset<T>, y: multiset<T>, z: multiset<T>)
    requires x + z == y + z
    ensures x == y
  {
    forall e | true
      ensures x[e] == y[e]
    {
      assert (x + z)[e] == (y + z)[e];
    }
  }

  /** Exchanges two neighbouring entries. */
  method SwapDown(a: array<ApodData>, j: nat)
    requires 0 < j < a.Length
    modifies a
    ensures a[j - 1] == old(a[j]) && a[j] == old(a[j - 1])
    ensures forall k :: 0 <= k < a.Length && k != j - 1 && k != j ==> a[k] == old(a[k])
    ensures multiset(a[..]) == multiset(old(a[..]))
  {
    a[j - 1], a[j] := a[j], a[j - 1];
  }

  /** Moves a[i] down past every older entry, so that a[..i + 1] is newest
      first when a[..i] was; nothing from i + 1 on is touched. */
  method InsertDown(a: array<ApodData>, i: nat)
    requires i < a.Length
    requires forall k, l :: 0 <= k < l < i ==> !Before(a[k].date, a[l].date)
    modifies a
    ensures forall k, l :: 0 <= k < l <= i ==> !Before(a[k].date, a[l].date)
    ensures a[i + 1..] == old(a[i + 1..])
    ensures multiset(a[..i + 1]) == multiset(old(a[..i + 1]))
    ensures multiset(a[..]) == multiset(old(a[..]))
  {
    var j := i;
    while j > 0 && Before(a[j - 1].date, a[j].date)
      invariant 0 <= j <= i
      invariant forall k, l :: 0 <= k < l <= i && k != j && l != j ==> !Before(a[k].date, a[l].date)
      invariant forall l :: j < l <= i ==> !Before(a[j].date, a[l].date)
      invariant forall k :: i < k < a.Length ==> a[k] == old(a[k])
      invariant multiset(a[..]) == multiset(old(a[..]))
    {
      BeforeAsymmetric(a[j - 1].date, a[j].date);
      SwapDown(a, j);
      j := j - 1;
    }
    forall k | 0 <= k < j - 1
      ensures !Before(a[k].date, a[j].date)
    {
      NotBeforeTransitive(a[k].date, a[j - 1].date, a[j].date);
    }
    assert a[i + 1..] == old(a[i + 1..]);
    assert a[..] == a[..i + 1] + a[i + 1..];
    assert old(a[..]) == old(a[..i + 1]) + old(a[i + 1..]);
    assert multiset(a[..]) == multiset(a[..i + 1]) + multiset(a[i + 1..]);
    assert multiset(old(a[..])) == multiset(old(a[..i + 1])) + multiset(old(a[i + 1..]));
    MultisetCancel(multiset(a[..i + 1]), multiset(old(a[..i + 1])), multiset(a[i + 1..]));
  }

  /** `apodResults.sort((a, b) => time(b.date) - time(a.date))`, in place:
      the array ends up a permutation of itself, newest first. */
  method SortNewestFirst(a: array<ApodData>)
    modifies a
    ensures NewestFirst(a[..])
    ensures multiset(a[..]) == multiset(old(a[..]))
  {
    var i := 0;
    while i < a.Length
      invariant 0 <= i <= a.Length
      invariant forall k, l :: 0 <= k < l < i ==> !Before(a[k].date, a[l].date)
      invariant multiset(a[..]) == multiset(old(a[..]))
    {
      InsertDown(a, i);
      i := i + 1;
    }
  }

  /** The three example dates are ordered 2019 < 2021 < 2023. */
  lemma ExampleDatesOrdered()
    ensures Before("2019-06-20", "2021-06-20") && !Before("2021-06-20", "2019-06-20")
    ensures Before("2021-06-20", "2023-06-20") && !Before("2023-06-20", "2021-06-20")
    ensures Before("2019-06-20", "2023-06-20") && !Before("2023-06-20", "2019-06-20")
  {
    assert Before("2019-06-20", "2021-06-20") by {
      assert "2019-06-20"[1..] == "019-06-20" && "2021-06-20"[1..] == "021-06-20";
      assert "019-06-20"[1..] == "19-06-20" && "021-06-20"[1..] == "21-06-20";
    }
    assert Before("2021-06-20", "2023-06-20") by {
      assert "2021-06-20"[1..] == "021-06-20" && "2023-06-20"[1..] == "023-06-20";
      assert "021-06-20"[1..] == "21-06-20" && "023-06-20"[1..] == "23-06-20";
      assert "21-06-20"[1..] == "1-06-20" && "23-06-20"[1..] == "3-06-20";
    }
    BeforeTransitive("2019-06-20", "2021-06-20", "2023-06-20");
    BeforeAsymmetric("2019-06-20", "2021-06-20");
    BeforeAsymmetric("2021-06-20", "2023-06-20");
    BeforeAsymmetric("2019-06-20", "2023-06-20");
  }

  /** Records dated 2021-06-20, 2019-06-20 and 2023-06-20, in any order, can
      only be arranged newest first as 2023, 2021, 2019. */
  lemma NewestFirstExample(s: seq<ApodData>, r2021: ApodData, r2019: ApodData, r2023: ApodData)
    requires r2021.date == "2021-06-20" && r2019.date == "2019-06-20" && r2023.date == "2023-06-20"
    requires multiset(s) == multiset([r2021, r2019, r2023])
    requires NewestFirst(s)
    ensures s == [r2023, r2021, r2019]
  {
    ExampleDatesOrdered();
    assert |s| == 3 by {
      assert |multiset(s)| == 3;
    }
    assert s == [s[0], s[1], s[2]];
    var x, y, z := s[0], s[1], s[2];
    assert multiset([x, y, z]) == multiset([r2021, r2019, r2023]);
    assert x in multiset([r2021, r2019, r2023]);
    assert y in multiset([r2021, r2019, r2023]);
    assert z in multiset([r2021, r2019, r2023]);
    assert r2023 in multiset([x, y, z]) && r2019 in multiset([x, y, z]);
    assert r2023 == x || r2023 == y || r2023 == z;
    assert r2019 == x || r2019 == y || r2019 == z;
    assert !Before(x.date, y.date) && !Before(x.date, z.date) && !Before(y.date, z.date);
    assert x == r2023;
    assert z == r2019;
    assert multiset([r2023, y, r2019])[r2021] == multiset([r2023, r2021, r2019])[r2021];
  }

  // --------------------------------------------------------------- render

  datatype Banner = Banner(failed: nat, total: nat)
  datatype Body = Grid(cards: seq<ApodData>) | NoPicturesFound
  datatype Page = Page(banner: Option<Banner>, body: Body)

  const BannerTail := " APOD entries could not be retrieved."

  /** The banner's sentence. */
  function BannerText(b: Banner): string {
    Text.NatToString(b.failed) + " of " + Text.NatToString(b.total) + BannerTail
  }

  /** Two failures out of five dates read "2 of 5". */
  lemma BannerTwoOfFive()
    ensures BannerText(Banner(2, 5)) == "2 of 5" + BannerTail
  {
    assert Text.NatToString(2) == "2" && Text.NatToString(5) == "5";
  }

  /** What the page shows: a banner when something failed, then the grid of
      cards when there are records, or else the empty-state notice. */
  function Render(failedCount: nat, total: nat, sortedApods: seq<ApodData>): (p: Page)
    ensures p.banner.Some? <==> failedCount > 0
    ensures p.banner.Some? ==> p.banner.value == Banner(failedCount, total)
    ensures p.body == if |sortedApods| > 0 then Grid(sortedApods) else NoPicturesFound
  {
    Page(if failedCount > 0 then Some(Banner(failedCount, total)) else None,
         if |sortedApods| > 0 then Grid(sortedApods) else NoPicturesFound)
  }

  /** The whole page: build the date list, fetch each date, sort the records
      newest first, and choose what to show. The banner appears exactly when
      some date failed and counts the failures out of all dates; the grid holds
      exactly the fetched records, newest first; with no record the page shows
      the empty-state notice. */
  method OnThisDayPage(currentYear: int, month: nat, day: nat,
                       transport: string -> Transport, parse: string -> Option<Json>)
    returns (page: Page)
    ensures var rs := Fetched(DateList(currentYear, month, day), Client(transport, parse));
      && (page.banner.Some? <==> exists i :: 0 <= i < |rs| && rs[i].Failed?)
      && (page.banner.Some? ==>
            page.banner.value.failed == FailureCount(rs)
            && page.banner.value.failed + |Successes(rs)| == YearCount(currentYear)
            && page.banner.value.total == YearCount(currentYear))
      && (page.body.Grid? <==> exists d :: Found(d) in rs)
      && (page.body.Grid? ==>
            NewestFirst(page.body.cards) && multiset(page.body.cards) == multiset(Successes(rs)))
      && ((forall i :: 0 <= i < |rs| ==> rs[i].Failed?) ==> page.body == NoPicturesFound)
  {
    var datesToFetch := DatesToFetch(currentYear, month, day);
    var apodResults, failedCount := CollectResults(datesToFetch, Client(transport, parse));
    var a := new ApodData[|apodResults|](i requires 0 <= i < |apodResults| => apodResults[i]);
    assert a[..] == apodResults;
    SortNewestFirst(a);
    var sortedApods := a[..];
    page := Render(failedCount, |datesToFetch|, sortedApods);

    ghost var rs := Fetched(datesToFetch, Client(transport, parse));
    FailureCountPositive(rs);
    assert |sortedApods| == |apodResults| by {
      assert |multiset(sortedApods)| == |multiset(apodResults)|;
    }
    if |sortedApods| > 0 {
      SuccessesAreTheRecords(rs, apodResults[0]);
    } else {
      forall d | Found(d) in rs
        ensures false
      {
        SuccessesAreTheRecords(rs, d);
      }
    }
  }
}
