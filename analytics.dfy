/** The click-analytics aggregator (`app/services/analytics.py`): for one
    short URL it fetches the click logs, optionally limited to a date range,
    and derives totals, recent-window counts, top-N breakdowns by referrer,
    country, device, browser and OS, a zero-filled daily series and a CSV
    projection. "Now" and the cache read are parameters; the click-log query
    is a filter over the stored click sequence. */
module Analytics {
  import opened Wrappers
  import opened Timeline
  import opened Records
  import opened Tallies

  /** Referrer label of the bucket for clicks without a referrer. */
  const DirectLabel: string := "Direct"
  const TopReferrerLimit: nat := 10
  const TopCountryLimit: nat := 10
  /** Days covered by the daily series when no `date_from` is given. */
  const DefaultRangeDays: nat := 30
  const WeekDays: nat := 7

  // ---------------------------------------------------------------------
  // Fetching the clicks
  // ---------------------------------------------------------------------

  /** The timestamp part of the click query: `$gte date_from` when given and
      `$lte` the last microsecond of the day of `date_to` when given. */
  predicate InDateRange(t: int, dateFrom: Option<int>, dateTo: Option<int>) {
    && (dateFrom.None? || dateFrom.value <= t)
    && (dateTo.None? || t <= EndOfDay(dateTo.value))
  }

  /** `ClickLog.find(query).to_list()`: the clicks of URL `urlId` that pass the
      date filter, in storage order. */
  function FetchClicks(log: seq<Click>, urlId: string, dateFrom: Option<int>, dateTo: Option<int>): (r: seq<Click>)
    ensures |r| <= |log|
    ensures forall c :: c in r <==> c in log && c.shortUrlId == urlId && InDateRange(c.timestamp, dateFrom, dateTo)
  {
    if log == [] then []
    else
      var front, last := log[..|log| - 1], log[|log| - 1];
      assert log == front + [last];
      FetchClicks(front, urlId, dateFrom, dateTo)
        + (if last.shortUrlId == urlId && InDateRange(last.timestamp, dateFrom, dateTo) then [last] else [])
  }

  /** The query keeps storage order: fetching from two consecutive stretches
      of the log gives the clicks of the first stretch, then those of the
      second. */
  lemma {:induction false} FetchClicksConcat(a: seq<Click>, b: seq<Click>, urlId: string,
                                             dateFrom: Option<int>, dateTo: Option<int>)
    ensures FetchClicks(a + b, urlId, dateFrom, dateTo)
         == FetchClicks(a, urlId, dateFrom, dateTo) + FetchClicks(b, urlId, dateFrom, dateTo)
  {
    if b == [] {
      assert a + b == a;
    } else {
      var front, last := b[..|b| - 1], b[|b| - 1];
      assert b == front + [last];
      assert a + b == (a + front) + [last];
      FetchClicksConcat(a, front, urlId, dateFrom, dateTo);
      FetchClicksConcatStep(a, front, last, urlId, dateFrom, dateTo);
    }
  }

  /** The inductive step of `FetchClicksConcat`: one more stored click. */
  lemma FetchClicksConcatStep(a: seq<Click>, front: seq<Click>, last: Click, urlId: string,
                              dateFrom: Option<int>, dateTo: Option<int>)
    requires FetchClicks(a + front, urlId, dateFrom, dateTo)
          == FetchClicks(a, urlId, dateFrom, dateTo) + FetchClicks(front, urlId, dateFrom, dateTo)
    ensures FetchClicks((a + front) + [last], urlId, dateFrom, dateTo)
         == FetchClicks(a, urlId, dateFrom, dateTo) + FetchClicks(front + [last], urlId, dateFrom, dateTo)
  {
    var tail := if last.shortUrlId == urlId && InDateRange(last.timestamp, dateFrom, dateTo) then [last] else [];
    var fa, ff := FetchClicks(a, urlId, dateFrom, dateTo), FetchClicks(front, urlId, dateFrom, dateTo);
    FetchClicksSnoc(front, last, urlId, dateFrom, dateTo);
    FetchClicksSnoc(a + front, last, urlId, dateFrom, dateTo);
    ConcatAssoc(fa, ff, tail);
  }

  /** Concatenation of click lists is associative. */
  lemma ConcatAssoc(x: seq<Click>, y: seq<Click>, z: seq<Click>)
    ensures (x + y) + z == x + (y + z)
  {
  }

  /** Each matching document is fetched exactly as often as it is stored, and
      no other document is fetched: `total_clicks` is the number of matching
      documents. */
  lemma {:induction false} FetchClicksCount(log: seq<Click>, urlId: string, dateFrom: Option<int>, dateTo: Option<int>)
    ensures forall c :: (multiset(FetchClicks(log, urlId, dateFrom, dateTo))[c] ==
                         if c.shortUrlId == urlId && InDateRange(c.timestamp, dateFrom, dateTo) then multiset(log)[c] else 0)
  {
    if log != [] {
      var front, last := log[..|log| - 1], log[|log| - 1];
      assert log == front + [last];
      FetchClicksCount(front, urlId, dateFrom, dateTo);
    }
  }

  /** Appending one stored click appends it to the result when it matches. */
  lemma FetchClicksSnoc(front: seq<Click>, last: Click, urlId: string, dateFrom: Option<int>, dateTo: Option<int>)
    ensures FetchClicks(front + [last], urlId, dateFrom, dateTo)
         == FetchClicks(front, urlId, dateFrom, dateTo)
            + (if last.shortUrlId == urlId && InDateRange(last.timestamp, dateFrom, dateTo) then [last] else [])
  {
    var log := front + [last];
    assert log[..|log| - 1] == front && log[|log| - 1] == last;
  }

  /** A single stored click is fetched exactly when it matches the query. */
  lemma FetchClicksOne(c: Click, urlId: string, dateFrom: Option<int>, dateTo: Option<int>)
    ensures FetchClicks([c], urlId, dateFrom, dateTo)
         == if c.shortUrlId == urlId && InDateRange(c.timestamp, dateFrom, dateTo) then [c] else []
  {
    assert [c][..0] == [];
  }

  /** Widening `date_to` to the end of its day makes the upper bound
      date-inclusive: a click passes it exactly when it happened on the day of
      `date_to` or earlier, whatever the time of day of `date_to`. */
  lemma DateToCoversWholeDay(t: int, dateFrom: Option<int>, to: int)
    ensures InDateRange(t, dateFrom, Some(to)) <==>
              (dateFrom.None? || dateFrom.value <= t) && Day(t) <= Day(to)
  {
    EndOfDayBound(t, to);
  }

  // ---------------------------------------------------------------------
  // Totals and recent windows
  // ---------------------------------------------------------------------

  /** Number of clicks at or after `since`. */
  function CountSince(cs: seq<Click>, since: int): (n: nat)
    ensures n <= |cs|
  {
    if cs == [] then 0
    else CountSince(cs[..|cs| - 1], since) + (if cs[|cs| - 1].timestamp >= since then 1 else 0)
  }

  /** Start of "today": UTC midnight of now. */
  function TodayStart(now: int): int {
    Midnight(now)
  }

  /** Start of "this week": seven days before UTC midnight of now. */
  function WeekStart(now: int): int {
    Midnight(now) - WeekDays * MicrosPerDay
  }

  lemma {:induction false} CountSinceAntitone(cs: seq<Click>, a: int, b: int)
    requires a <= b
    ensures CountSince(cs, b) <= CountSince(cs, a)
  {
    if cs != [] {
      CountSinceAntitone(cs[..|cs| - 1], a, b);
    }
  }

  /** Clicks today never outnumber clicks this week, which never outnumber
      all the clicks counted. */
  lemma RecentWindows(cs: seq<Click>, now: int)
    ensures CountSince(cs, TodayStart(now)) <= CountSince(cs, WeekStart(now)) <= |cs|
  {
    CountSinceAntitone(cs, WeekStart(now), TodayStart(now));
  }

  // ---------------------------------------------------------------------
  // Breakdowns by one field
  // ---------------------------------------------------------------------

  datatype Field = Referrer | Browser | Os | DeviceType | Country | City

  function FieldOf(c: Click, f: Field): Option<string> {
    match f
    case Referrer => c.referrer
    case Browser => c.browser
    case Os => c.os
    case DeviceType => c.deviceType
    case Country => c.country
    case City => c.city
  }

  /** `[c.<f> for c in cs if c.<f>]`: the non-empty values of field `f`. */
  function PresentValues(cs: seq<Click>, f: Field): (vs: seq<string>)
    ensures |vs| <= |cs|
    ensures forall v :: v in vs ==> v != ""
  {
    if cs == [] then []
    else
      var rest := PresentValues(cs[..|cs| - 1], f);
      var x := FieldOf(cs[|cs| - 1], f);
      if Truthy(x) then rest + [x.value] else rest
  }

  /** Number of clicks whose field `f` holds `v`. */
  function CountWithValue(cs: seq<Click>, f: Field, v: string): (n: nat)
    ensures n <= |cs|
  {
    if cs == [] then 0
    else CountWithValue(cs[..|cs| - 1], f, v) + (if FieldOf(cs[|cs| - 1], f) == Some(v) then 1 else 0)
  }

  lemma {:induction false} PresentValuesCount(cs: seq<Click>, f: Field, v: string)
    requires v != ""
    ensures Occurrences(PresentValues(cs, f), v) == CountWithValue(cs, f, v)
  {
    if cs != [] {
      var front := cs[..|cs| - 1];
      var rest := PresentValues(front, f);
      var x := FieldOf(cs[|cs| - 1], f);
      PresentValuesCount(front, f, v);
      if Truthy(x) {
        assert (rest + [x.value])[..|rest|] == rest;
      }
    }
  }

  /** `most_common(cap)` over the non-empty values of field `f`. */
  function Breakdown(cs: seq<Click>, f: Field, cap: Option<nat>): seq<Entry> {
    MostCommon(Tally(PresentValues(cs, f)), cap)
  }

  /** What a breakdown promises: entries sorted by non-increasing count with
      distinct, non-empty keys, each counting exactly the clicks that carry
      that value; at most `cap` entries and, without a cap, one per value;
      nothing left out outranks anything kept; ties in first-seen order; the
      counts add up to at most the number of clicks. */
  ghost predicate IsFieldBreakdown(cs: seq<Click>, f: Field, cap: Option<nat>, r: seq<Entry>) {
    var vs := PresentValues(cs, f);
    && SortedDesc(r)
    && DistinctKeys(r)
    && |r| == (if cap.Some? then Min(cap.value, |FirstSeen(vs)|) else |FirstSeen(vs)|)
    && (forall e :: e in r ==> e.key != "" && e.key in vs && e.count == CountWithValue(cs, f, e.key) >= 1)
    && (cap.None? ==> forall v :: v in vs ==> v in KeysOf(r))
    && (forall v, x :: v in vs && v !in KeysOf(r) && x in r ==> x.count >= CountWithValue(cs, f, v))
    && (forall n :: WithCount(r, n) <= WithCount(Tally(vs), n))
    && Total(r) <= |vs| <= |cs|
  }

  lemma BreakdownShape(cs: seq<Click>, f: Field, cap: Option<nat>)
    ensures var vs := PresentValues(cs, f); var r := Breakdown(cs, f, cap);
      && SortedDesc(r)
      && DistinctKeys(r)
      && |r| == (if cap.Some? then Min(cap.value, |FirstSeen(vs)|) else |FirstSeen(vs)|)
      && (forall n :: WithCount(r, n) <= WithCount(Tally(vs), n))
      && Total(r) <= |vs|
  {
    var vs := PresentValues(cs, f);
    TallyIsCounter(vs);
    MostCommonFacts(Tally(vs), cap);
  }

  lemma BreakdownTotal(cs: seq<Click>, f: Field, cap: Option<nat>)
    ensures Total(Breakdown(cs, f, cap)) <= |PresentValues(cs, f)|
  {
    var vs := PresentValues(cs, f);
    TallyCounts(vs);
    MostCommonShape(Tally(vs), cap);
  }

  lemma BreakdownEntries(cs: seq<Click>, f: Field, cap: Option<nat>)
    ensures var vs := PresentValues(cs, f);
      forall e :: e in Breakdown(cs, f, cap) ==>
        e.key != "" && e.key in vs && e.count == CountWithValue(cs, f, e.key) >= 1
  {
    var vs := PresentValues(cs, f);
    var t := Tally(vs);
    var r := Breakdown(cs, f, cap);
    TallyIsCounter(vs);
    MostCommonShape(t, cap);
    forall e | e in r ensures e.key != "" && e.key in vs && e.count == CountWithValue(cs, f, e.key) >= 1 {
      assert e in multiset(t);
      PresentValuesCount(cs, f, e.key);
    }
  }

  lemma BreakdownCovers(cs: seq<Click>, f: Field)
    ensures forall v :: v in PresentValues(cs, f) ==> v in KeysOf(Breakdown(cs, f, None))
  {
    var vs := PresentValues(cs, f);
    var t := Tally(vs);
    var r := Breakdown(cs, f, None);
    TallyIsCounter(vs);
    MostCommonShape(t, None);
    forall v | v in vs ensures v in KeysOf(r) {
      var i :| 0 <= i < |t| && KeysOf(t)[i] == v;
      assert t[i] in multiset(r);
      var j :| 0 <= j < |r| && r[j] == t[i];
      assert KeysOf(r)[j] == v;
    }
  }

  lemma BreakdownRanks(cs: seq<Click>, f: Field, cap: Option<nat>)
    ensures var vs := PresentValues(cs, f); var r := Breakdown(cs, f, cap);
      forall v, x :: v in vs && v !in KeysOf(r) && x in r ==> x.count >= CountWithValue(cs, f, v)
  {
    var vs := PresentValues(cs, f);
    var t := Tally(vs);
    var r := Breakdown(cs, f, cap);
    TallyIsCounter(vs);
    MostCommonRanks(t, cap);
    forall v, x | v in vs && v !in KeysOf(r) && x in r ensures x.count >= CountWithValue(cs, f, v) {
      var i :| 0 <= i < |t| && KeysOf(t)[i] == v;
      assert t[i] in t;
      assert t[i] !in r by {
        forall j | 0 <= j < |r| ensures r[j] != t[i] { assert KeysOf(r)[j] != v; }
      }
      PresentValuesCount(cs, f, v);
    }
  }

  lemma BreakdownFacts(cs: seq<Click>, f: Field, cap: Option<nat>)
    ensures IsFieldBreakdown(cs, f, cap, Breakdown(cs, f, cap))
  {
    BreakdownShape(cs, f, cap);
    BreakdownEntries(cs, f, cap);
    BreakdownRanks(cs, f, cap);
    if cap.None? { BreakdownCovers(cs, f); }
  }

  // ---------------------------------------------------------------------
  // Top referrers
  // ---------------------------------------------------------------------

  /** `sum(1 for c in cs if not c.referrer)`: clicks without a referrer. */
  function DirectCount(cs: seq<Click>): (n: nat)
    ensures n + |PresentValues(cs, Referrer)| == |cs|
  {
    if cs == [] then 0
    else DirectCount(cs[..|cs| - 1]) + (if Truthy(cs[|cs| - 1].referrer) then 0 else 1)
  }

  /** The candidates for `top_referrers`: the ten most common non-empty
      referrers, then a separate "Direct" entry when some clicks have none. */
  function ReferrerPool(cs: seq<Click>): seq<Entry> {
    var direct := DirectCount(cs);
    Breakdown(cs, Referrer, Some(TopReferrerLimit))
      + (if direct > 0 then [Entry(DirectLabel, direct)] else [])
  }

  /** What `top_referrers` promises: at most ten entries by non-increasing
      count, drawn from the pool, as many as fit; nothing left out outranks
      anything kept; equal counts keep their pool order (so the "Direct" entry
      goes after every referrer it ties); without direct clicks it is the plain
      top-10 breakdown; with them, the "Direct" entry is kept whenever fewer
      than ten referrers were ranked; the counts add up to at most the number
      of clicks. */
  ghost predicate IsTopReferrers(cs: seq<Click>, top: seq<Entry>) {
    var pool := ReferrerPool(cs);
    var direct := DirectCount(cs);
    var ranked := Breakdown(cs, Referrer, Some(TopReferrerLimit));
    && |top| == Min(TopReferrerLimit, |pool|)
    && SortedDesc(top)
    && multiset(top) <= multiset(pool)
    && (forall e :: e in pool && e !in top ==> forall x :: x in top ==> x.count >= e.count)
    && (forall n :: WithCount(top, n) <= WithCount(pool, n))
    && (direct == 0 ==> top == ranked)
    && (direct > 0 && |ranked| < TopReferrerLimit ==> Entry(DirectLabel, direct) in top)
    && Total(top) <= |cs|
  }

  lemma TopWithoutDirect(cs: seq<Click>)
    requires DirectCount(cs) == 0
    ensures IsTopReferrers(cs, Breakdown(cs, Referrer, Some(TopReferrerLimit)))
  {
    var ranked := Breakdown(cs, Referrer, Some(TopReferrerLimit));
    BreakdownShape(cs, Referrer, Some(TopReferrerLimit));
    PoolTotal(cs);
    assert ReferrerPool(cs) == ranked;
  }

  /** The pool counts no click twice. */
  lemma PoolTotal(cs: seq<Click>)
    ensures Total(ReferrerPool(cs)) <= |cs|
  {
    var ranked := Breakdown(cs, Referrer, Some(TopReferrerLimit));
    var direct := [Entry(DirectLabel, DirectCount(cs))];
    BreakdownTotal(cs, Referrer, Some(TopReferrerLimit));
    TotalConcat(ranked, direct);
    TotalConcat(ranked, []);
  }

  lemma DirectKept(cs: seq<Click>)
    requires DirectCount(cs) > 0
    requires |Breakdown(cs, Referrer, Some(TopReferrerLimit))| < TopReferrerLimit
    ensures Entry(DirectLabel, DirectCount(cs)) in MostCommon(ReferrerPool(cs), Some(TopReferrerLimit))
  {
    var d := Entry(DirectLabel, DirectCount(cs));
    var pool := Breakdown(cs, Referrer, Some(TopReferrerLimit)) + [d];
    assert ReferrerPool(cs) == pool;
    var top := MostCommon(pool, Some(TopReferrerLimit));
    MostCommonShape(pool, Some(TopReferrerLimit));
    assert |top| == |pool|;
    assert multiset(pool) - multiset(top) == multiset{} by {
      assert |multiset(pool) - multiset(top)| == |multiset(pool)| - |multiset(top)|;
    }
    assert d in multiset(pool);
  }

  lemma TopWithDirect(cs: seq<Click>)
    requires DirectCount(cs) > 0
    ensures IsTopReferrers(cs, MostCommon(ReferrerPool(cs), Some(TopReferrerLimit)))
  {
    MostCommonFacts(ReferrerPool(cs), Some(TopReferrerLimit));
    PoolTotal(cs);
    if |Breakdown(cs, Referrer, Some(TopReferrerLimit))| < TopReferrerLimit {
      DirectKept(cs);
    }
  }

  /** The top-referrers step of `get_url_stats`: rank the non-empty referrers, then append the "Direct"
      entry, re-sort and cut back to ten. */
  method TopReferrers(cs: seq<Click>) returns (top: seq<Entry>)
    ensures IsTopReferrers(cs, top)
  {
    top := Breakdown(cs, Referrer, Some(TopReferrerLimit));
    var direct := DirectCount(cs);
    if direct > 0 {
      top := top + [Entry(DirectLabel, direct)];
      top := SortDesc(top);
      top := top[..Min(TopReferrerLimit, |top|)];
      TopWithDirect(cs);
    } else {
      TopWithoutDirect(cs);
    }
  }

  // ---------------------------------------------------------------------
  // Daily series
  // ---------------------------------------------------------------------

  /** One `{"date", "count"}` item; `date` is the calendar day number. */
  datatype DayCount = DayCount(date: int, count: nat)

  /** Clicks at or after `since` that fall on calendar day `day`. */
  function ClicksOnDay(cs: seq<Click>, since: int, day: int): nat {
    if cs == [] then 0
    else
      var c := cs[|cs| - 1];
      ClicksOnDay(cs[..|cs| - 1], since, day) + (if c.timestamp >= since && Day(c.timestamp) == day then 1 else 0)
  }

  /** How many steps of one day from `start` stay at or before `end`. */
  function SeriesLength(start: int, end: int): nat {
    if end < start then 0 else (end - start) / MicrosPerDay + 1
  }

  /** The series the code is meant to produce: one item per step of one day
      from `start` while at or before `end`, carrying that step's calendar day
      and the clicks at or after `start` on that day (0 when there are none). */
  function Series(cs: seq<Click>, start: int, end: int): (s: seq<DayCount>) {
    seq(SeriesLength(start, end),
        j => DayCount(Day(start) + j, ClicksOnDay(cs, start, Day(start) + j)))
  }

  /** The clicks-over-time step of `get_url_stats`: tally clicks per day into a dictionary, then walk from
      `rangeStart` to `rangeEnd` in steps of one day, filling gaps with 0. */
  method ClicksOverTime(cs: seq<Click>, rangeStart: int, rangeEnd: int) returns (series: seq<DayCount>)
    ensures series == Series(cs, rangeStart, rangeEnd)
  {
    var daily: map<int, nat> := map[];
    for i := 0 to |cs|
      invariant forall d :: ClicksOnDay(cs[..i], rangeStart, d) == if d in daily then daily[d] else 0
    {
      assert cs[..i + 1][..i] == cs[..i];
      if cs[i].timestamp >= rangeStart {
        var key := Day(cs[i].timestamp);
        daily := daily[key := (if key in daily then daily[key] else 0) + 1];
      }
    }
    assert cs[..|cs|] == cs;

    series := [];
    var current := rangeStart;
    while current <= rangeEnd
      invariant current == rangeStart + |series| * MicrosPerDay
      invariant |series| <= SeriesLength(rangeStart, rangeEnd)
      invariant forall j :: 0 <= j < |series| ==>
                  series[j] == DayCount(Day(rangeStart) + j, ClicksOnDay(cs, rangeStart, Day(rangeStart) + j))
      decreases rangeEnd - current
    {
      WholeDaysWithin(rangeEnd - rangeStart, |series|);
      DayShift(rangeStart, |series|);
      var key := Day(current);
      series := series + [DayCount(key, if key in daily then daily[key] else 0)];
      current := current + MicrosPerDay;
    }
    if rangeStart <= rangeEnd {
      WholeDaysWithin(rangeEnd - rangeStart, |series|);
    }
  }

  /** The series starts on the day of `start`, advances one day per item and
      ends on the day of `end` — or on the day before when the time of day of
      `end` is earlier than that of `start` (the end is not widened to the end
      of its day). */
  lemma SeriesEnds(cs: seq<Click>, start: int, end: int)
    requires start <= end
    ensures var s := Series(cs, start, end);
      && |s| >= 1
      && s[0].date == Day(start)
      && (forall j :: 0 < j < |s| ==> s[j].date == s[j - 1].date + 1)
      && s[|s| - 1].date == if TimeOfDay(start) <= TimeOfDay(end) then Day(end) else Day(end) - 1
  {
    var k := Day(end) - Day(start);
    assert end - start == k * MicrosPerDay + (TimeOfDay(end) - TimeOfDay(start));
    if TimeOfDay(start) <= TimeOfDay(end) {
      DayOf(k, TimeOfDay(end) - TimeOfDay(start));
    } else {
      assert end - start == (k - 1) * MicrosPerDay + (MicrosPerDay + TimeOfDay(end) - TimeOfDay(start));
      DayOf(k - 1, MicrosPerDay + TimeOfDay(end) - TimeOfDay(start));
    }
  }

  /** Without a date range the series covers the 31 days from 30 days ago up
      to today. */
  lemma DefaultSeries(cs: seq<Click>, now: int)
    ensures var s := Series(cs, now - DefaultRangeDays * MicrosPerDay, now);
      |s| == 31 && s[0].date == Day(now) - 30 && s[30].date == Day(now)
  {
    DayShift(now - DefaultRangeDays * MicrosPerDay, 30);
    DayOf(30, 0);
  }

  /** 2025-03-01 to 2025-03-10 (days 20148 to 20157 since 1970-01-01, both at
      midnight) gives ten items, from 2025-03-01 to 2025-03-10. */
  lemma MarchSeries(cs: seq<Click>)
    ensures var s := Series(cs, 20148 * MicrosPerDay, 20157 * MicrosPerDay);
      |s| == 10 && s[0].date == 20148 && s[9].date == 20157
  {
    DayOf(20148, 0);
    DayOf(9, 0);
  }

  /** Clicks at or after `since` on the days `lo` up to, not including, `hi`. */
  function ClicksInDays(cs: seq<Click>, since: int, lo: int, hi: int): nat {
    if cs == [] then 0
    else
      var c := cs[|cs| - 1];
      ClicksInDays(cs[..|cs| - 1], since, lo, hi)
        + (if c.timestamp >= since && lo <= Day(c.timestamp) < hi then 1 else 0)
  }

  lemma {:induction false} ClicksInDaysStep(cs: seq<Click>, since: int, lo: int, hi: int)
    requires lo <= hi
    ensures ClicksInDays(cs, since, lo, hi + 1) == ClicksInDays(cs, since, lo, hi) + ClicksOnDay(cs, since, hi)
  {
    if cs != [] {
      ClicksInDaysStep(cs[..|cs| - 1], since, lo, hi);
    }
  }

  lemma {:induction false} ClicksInDaysAll(cs: seq<Click>, since: int, lo: int, hi: int)
    requires forall c :: c in cs ==> c.timestamp >= since && lo <= Day(c.timestamp) < hi
    ensures ClicksInDays(cs, since, lo, hi) == |cs|
  {
    if cs != [] {
      assert cs[|cs| - 1] in cs;
      assert forall c :: c in cs[..|cs| - 1] ==> c in cs;
      ClicksInDaysAll(cs[..|cs| - 1], since, lo, hi);
    }
  }

  lemma {:induction false} NoDaysNoClicks(cs: seq<Click>, since: int, lo: int)
    ensures ClicksInDays(cs, since, lo, lo) == 0
  {
    if cs != [] {
      NoDaysNoClicks(cs[..|cs| - 1], since, lo);
    }
  }

  function SumCounts(s: seq<DayCount>): nat {
    if s == [] then 0 else SumCounts(s[..|s| - 1]) + s[|s| - 1].count
  }

  lemma {:induction false} SeriesPrefixSum(cs: seq<Click>, start: int, end: int, k: nat)
    requires k <= SeriesLength(start, end)
    ensures SumCounts(Series(cs, start, end)[..k]) == ClicksInDays(cs, start, Day(start), Day(start) + k)
  {
    var s := Series(cs, start, end);
    if k == 0 {
      NoDaysNoClicks(cs, start, Day(start));
    } else {
      SeriesPrefixSum(cs, start, end, k - 1);
      assert SumCounts(s[..k - 1]) == ClicksInDays(cs, start, Day(start), Day(start) + k - 1);
      assert s[..k][..k - 1] == s[..k - 1];
      assert s[..k][k - 1].count == ClicksOnDay(cs, start, Day(start) + k - 1);
      assert SumCounts(s[..k]) == SumCounts(s[..k - 1]) + ClicksOnDay(cs, start, Day(start) + k - 1);
      ClicksInDaysStep(cs, start, Day(start), Day(start) + k - 1);
      assert ClicksInDays(cs, start, Day(start), Day(start) + k)
        == ClicksInDays(cs, start, Day(start), Day(start) + k - 1) + ClicksOnDay(cs, start, Day(start) + k - 1);
    }
  }

  /** With both dates given (`date_from <= date_to`, as the API enforces) and
      the time of day of `date_from` not after that of `date_to` (two plain
      dates, say), every fetched click is counted in the series exactly once:
      the counts add up to `total_clicks`. */
  lemma SeriesCountsEveryClick(log: seq<Click>, urlId: string, from: int, to: int)
    requires from <= to && TimeOfDay(from) <= TimeOfDay(to)
    ensures var cs := FetchClicks(log, urlId, Some(from), Some(to));
      SumCounts(Series(cs, from, to)) == |cs|
  {
    var cs := FetchClicks(log, urlId, Some(from), Some(to));
    var s := Series(cs, from, to);
    SeriesSpan(cs, from, to);
    SeriesPrefixSum(cs, from, to, |s|);
    assert s[..|s|] == s;
    forall c | c in cs ensures c.timestamp >= from && Day(from) <= Day(c.timestamp) < Day(to) + 1 {
      FetchedDays(log, urlId, from, to, c);
    }
    ClicksInDaysAll(cs, from, Day(from), Day(to) + 1);
  }

  /** Under the same conditions the series covers the days of `from` up to
      and including the day of `to`. */
  lemma SeriesSpan(cs: seq<Click>, from: int, to: int)
    requires from <= to && TimeOfDay(from) <= TimeOfDay(to)
    ensures Day(from) + |Series(cs, from, to)| == Day(to) + 1
  {
    SeriesEnds(cs, from, to);
  }

  /** A click fetched for both dates lies at or after `date_from` and on a
      day from that of `date_from` to that of `date_to`. */
  lemma FetchedDays(log: seq<Click>, urlId: string, from: int, to: int, c: Click)
    requires c in FetchClicks(log, urlId, Some(from), Some(to))
    ensures c.timestamp >= from && Day(from) <= Day(c.timestamp) <= Day(to)
  {
    assert InDateRange(c.timestamp, Some(from), Some(to));
    DayMonotone(from, c.timestamp);
    EndOfDayBound(c.timestamp, to);
  }

  // ---------------------------------------------------------------------
  // The statistics report
  // ---------------------------------------------------------------------

  /** `URLStats`. */
  datatype UrlStats = UrlStats(
    shortCode: string,
    originalUrl: string,
    totalClicks: nat,
    clicksToday: nat,
    clicksThisWeek: nat,
    topReferrers: seq<Entry>,
    clicksByCountry: seq<Entry>,
    clicksByDevice: seq<Entry>,
    clicksOverTime: seq<DayCount>)

  /** First day of the series: `date_from`, or now minus 30 days. */
  function RangeStart(dateFrom: Option<int>, now: int): int {
    dateFrom.GetOr(now - DefaultRangeDays * MicrosPerDay)
  }

  /** Last instant the series may reach: the raw `date_to`, or now. */
  function RangeEnd(dateTo: Option<int>, now: int): int {
    dateTo.GetOr(now)
  }

  /** The report for URL `u` over the fetched clicks `cs`. All counts are over
      `cs`, the date-filtered clicks, including the two recent windows. */
  ghost predicate IsStatsReport(u: ShortUrl, code: string, cs: seq<Click>,
                                dateFrom: Option<int>, dateTo: Option<int>, now: int, s: UrlStats) {
    && s.shortCode == code
    && s.originalUrl == u.originalUrl
    && s.totalClicks == |cs|
    && s.clicksToday == CountSince(cs, TodayStart(now))
    && s.clicksThisWeek == CountSince(cs, WeekStart(now))
    && IsTopReferrers(cs, s.topReferrers)
    && s.clicksByCountry == Breakdown(cs, Country, Some(TopCountryLimit))
    && s.clicksByDevice == Breakdown(cs, DeviceType, None)
    && s.clicksOverTime == Series(cs, RangeStart(dateFrom, now), RangeEnd(dateTo, now))
  }

  /** `get_url_stats`: `None` exactly when no URL has the code (a URL without
      clicks still gets a report); otherwise the report over this URL's clicks
      that pass the date filter. */
  method GetUrlStats(urls: seq<ShortUrl>, log: seq<Click>, code: string,
                     dateFrom: Option<int>, dateTo: Option<int>, now: int) returns (r: Option<UrlStats>)
    ensures r.None? <==> FindByCode(urls, code).None?
    ensures r.Some? ==>
      var u := FindByCode(urls, code).value;
      IsStatsReport(u, code, FetchClicks(log, u.id, dateFrom, dateTo), dateFrom, dateTo, now, r.value)
  {
    var found := FindByCode(urls, code);
    if found.None? {
      return None;
    }
    var u := found.value;
    var cs := FetchClicks(log, u.id, dateFrom, dateTo);
    var todayStart := TodayStart(now);
    var weekStart := WeekStart(now);
    var topReferrers := TopReferrers(cs);
    var series := ClicksOverTime(cs, RangeStart(dateFrom, now), RangeEnd(dateTo, now));
    r := Some(UrlStats(
      code, u.originalUrl, |cs|,
      CountSince(cs, todayStart), CountSince(cs, weekStart),
      topReferrers,
      Breakdown(cs, Country, Some(TopCountryLimit)),
      Breakdown(cs, DeviceType, None),
      series));
  }

  /** What every report guarantees, whatever the clicks. */
  lemma StatsReportFacts(u: ShortUrl, code: string, cs: seq<Click>,
                         dateFrom: Option<int>, dateTo: Option<int>, now: int, s: UrlStats)
    requires IsStatsReport(u, code, cs, dateFrom, dateTo, now, s)
    ensures s.clicksToday <= s.clicksThisWeek <= s.totalClicks
    ensures |s.topReferrers| <= TopReferrerLimit && SortedDesc(s.topReferrers)
    ensures |s.clicksByCountry| <= TopCountryLimit && SortedDesc(s.clicksByCountry)
    ensures SortedDesc(s.clicksByDevice)
    ensures forall e :: e in s.clicksByCountry ==> e.key != "" && e.count == CountWithValue(cs, Country, e.key)
    ensures forall e :: e in s.clicksByDevice ==> e.key != "" && e.count == CountWithValue(cs, DeviceType, e.key)
    ensures Total(s.clicksByCountry) <= s.totalClicks && Total(s.clicksByDevice) <= s.totalClicks
    ensures |s.clicksOverTime| == SeriesLength(RangeStart(dateFrom, now), RangeEnd(dateTo, now))
  {
    RecentWindows(cs, now);
    BreakdownFacts(cs, Country, Some(TopCountryLimit));
    BreakdownFacts(cs, DeviceType, None);
  }

  // ---------------------------------------------------------------------
  // Real-time counter, browser and OS breakdowns
  // ---------------------------------------------------------------------

  /** What reading `clicks:<code>` from the cache gave: no cache client, an
      exception (connection failure, or a stored value `int()` rejects), a
      missing key or empty value, or a non-empty value that parses to `value`. */
  datatype CacheRead = NoClient | Raised | Miss | Hit(value: int)

  /** `get_real_time_clicks`: the cached counter when there is one (even 0),
      otherwise, silently, the durable counter of the URL, or 0 for an unknown
      code. */
  function RealtimeClicks(cache: CacheRead, urls: seq<ShortUrl>, code: string): (n: int)
    ensures cache.Hit? ==> n == cache.value
    ensures !cache.Hit? && FindByCode(urls, code).None? ==> n == 0
    ensures !cache.Hit? && FindByCode(urls, code).Some? ==> n == FindByCode(urls, code).value.clicks
  {
    match cache
    case Hit(v) => v
    case _ =>
      match FindByCode(urls, code)
      case Some(u) => u.clicks
      case None => 0
  }

  /** A failing cache is indistinguishable from a cold one. */
  lemma CacheFailureIsSilent(urls: seq<ShortUrl>, code: string)
    ensures RealtimeClicks(NoClient, urls, code) == RealtimeClicks(Raised, urls, code)
              == RealtimeClicks(Miss, urls, code)
  {
  }

  /** All clicks of URL `urlId`, in storage order (no date filter). */
  function AllClicks(log: seq<Click>, urlId: string): (r: seq<Click>)
    ensures forall c :: c in r <==> c in log && c.shortUrlId == urlId
  {
    FetchClicks(log, urlId, None, None)
  }

  /** `get_browser_stats`: `[]` for an unknown code, else the uncapped browser
      breakdown over all of the URL's clicks. */
  function BrowserStats(urls: seq<ShortUrl>, log: seq<Click>, code: string): (r: seq<Entry>)
    ensures FindByCode(urls, code).None? ==> r == []
    ensures FindByCode(urls, code).Some? ==>
              IsFieldBreakdown(AllClicks(log, FindByCode(urls, code).value.id), Browser, None, r)
  {
    match FindByCode(urls, code)
    case None => []
    case Some(u) =>
      BreakdownFacts(AllClicks(log, u.id), Browser, None);
      Breakdown(AllClicks(log, u.id), Browser, None)
  }

  /** `get_os_stats`: `[]` for an unknown code, else the uncapped OS breakdown
      over all of the URL's clicks. */
  function OsStats(urls: seq<ShortUrl>, log: seq<Click>, code: string): (r: seq<Entry>)
    ensures FindByCode(urls, code).None? ==> r == []
    ensures FindByCode(urls, code).Some? ==>
              IsFieldBreakdown(AllClicks(log, FindByCode(urls, code).value.id), Os, None, r)
  {
    match FindByCode(urls, code)
    case None => []
    case Some(u) =>
      BreakdownFacts(AllClicks(log, u.id), Os, None);
      Breakdown(AllClicks(log, u.id), Os, None)
  }

  // ---------------------------------------------------------------------
  // CSV export
  // ---------------------------------------------------------------------

  /** One CSV field: text, or a timestamp (its ISO-8601 rendering and the CSV
      quoting are not modelled). */
  datatype Cell = Text(text: string) | Timestamp(instant: int)

  const CsvHeader: seq<Cell> :=
    [Text("timestamp"), Text("referrer"), Text("browser"), Text("os"),
     Text("device_type"), Text("country"), Text("city")]

  /** The row written for one click; an absent or empty field is `""`. */
  function CsvRow(c: Click): (row: seq<Cell>)
    ensures |row| == |CsvHeader| == 7
    ensures row[0] == Timestamp(c.timestamp)
    ensures forall k :: 1 <= k < 7 ==> row[k].Text?
  {
    [Timestamp(c.timestamp), Text(OrEmpty(c.referrer)), Text(OrEmpty(c.browser)), Text(OrEmpty(c.os)),
     Text(OrEmpty(c.deviceType)), Text(OrEmpty(c.country)), Text(OrEmpty(c.city))]
  }

  /** Reading a text cell back: `""` means the field was absent. */
  function FieldOfCell(cell: Cell): Option<string> {
    if cell.Text? && cell.text != "" then Some(cell.text) else None
  }

  /** A click with each absent-or-empty field written as absent. */
  function Normalized(c: Click): Click {
    c.(referrer := if Truthy(c.referrer) then c.referrer else None,
       browser := if Truthy(c.browser) then c.browser else None,
       os := if Truthy(c.os) then c.os else None,
       deviceType := if Truthy(c.deviceType) then c.deviceType else None,
       country := if Truthy(c.country) then c.country else None,
       city := if Truthy(c.city) then c.city else None)
  }

  /** A CSV row of this URL read back into a click. */
  function ClickOfRow(urlId: string, row: seq<Cell>): Click
    requires |row| == 7 && row[0].Timestamp?
  {
    Click(urlId, row[0].instant, FieldOfCell(row[1]), FieldOfCell(row[2]), FieldOfCell(row[3]),
          FieldOfCell(row[4]), FieldOfCell(row[5]), FieldOfCell(row[6]))
  }

  /** The row loses nothing but the difference between an absent and an empty
      field. */
  lemma CsvRowRoundTrip(c: Click)
    ensures ClickOfRow(c.shortUrlId, CsvRow(c)) == Normalized(c)
  {
  }

  /** The writer loop of `export_clicks_csv`: write the header, then one row per click, into a buffer. */
  method WriteCsv(cs: seq<Click>) returns (rows: seq<seq<Cell>>)
    ensures |rows| == |cs| + 1 && rows[0] == CsvHeader
    ensures forall i :: 0 <= i < |cs| ==> rows[i + 1] == CsvRow(cs[i])
  {
    rows := [CsvHeader];
    for i := 0 to |cs|
      invariant |rows| == i + 1 && rows[0] == CsvHeader
      invariant forall k :: 0 <= k < i ==> rows[k + 1] == CsvRow(cs[k])
    {
      rows := rows + [CsvRow(cs[i])];
    }
  }

  /** `export_clicks_csv`: `None` exactly for an unknown code; otherwise the
      header and one row per fetched click in fetch order (header only when no
      click matches). */
  method ExportClicksCsv(urls: seq<ShortUrl>, log: seq<Click>, code: string,
                         dateFrom: Option<int>, dateTo: Option<int>) returns (r: Option<seq<seq<Cell>>>)
    ensures r.None? <==> FindByCode(urls, code).None?
    ensures r.Some? ==>
      var cs := FetchClicks(log, FindByCode(urls, code).value.id, dateFrom, dateTo);
      && |r.value| == |cs| + 1 && r.value[0] == CsvHeader
      && forall i :: 0 <= i < |cs| ==> r.value[i + 1] == CsvRow(cs[i])
  {
    var found := FindByCode(urls, code);
    if found.None? {
      return None;
    }
    var cs := FetchClicks(log, found.value.id, dateFrom, dateTo);
    var rows := WriteCsv(cs);
    r := Some(rows);
  }
}
