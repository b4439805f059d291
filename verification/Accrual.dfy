/** What each platform earned between two days (app.go computeEarningsSummary over
    internal/exchange/exchange.go). Days are day numbers and amounts are exact. */
module Accrual {
  import opened Common

  // ---------------------------------------------------------------------
  // Exchange rates, fixed for the length of one summary.
  // ---------------------------------------------------------------------

  /** Fiat rates are USD to currency, crypto rates are token to USD. */
  datatype Rates = Rates(fiat: map<string, real>, crypto: map<string, real>)

  function Rate(table: map<string, real>, currency: string): Option<real> {
    if currency in table && table[currency] > 0.0 then Some(table[currency]) else None
  }

  function ToUsd(r: Rates, amount: real, currency: string): Option<real> {
    if currency == "USD" then Some(amount)
    else if Rate(r.crypto, currency).Some? then Some(amount * r.crypto[currency])
    else if Rate(r.fiat, currency).Some? then Some(amount / r.fiat[currency])
    else None
  }

  function FromUsd(r: Rates, usd: real, display: string): Option<real> {
    if display == "USD" then Some(usd)
    else if Rate(r.fiat, display).Some? then Some(usd * r.fiat[display])
    else if Rate(r.crypto, display).Some? then Some(usd / r.crypto[display])
    else None
  }

  function ToDisplay(r: Rates, amount: real, from: string, display: string): Option<real> {
    match ToUsd(r, amount, from)
    case Some(usd) => FromUsd(r, usd, display)
    case None => None
  }

  /** What one unit of a currency is in USD, and one USD in a currency. */
  function UsdWorth(r: Rates, currency: string): Option<real> {
    if currency == "USD" then Some(1.0)
    else if Rate(r.crypto, currency).Some? then Some(r.crypto[currency])
    else if Rate(r.fiat, currency).Some? then Some(1.0 / r.fiat[currency])
    else None
  }

  function WorthOfUsd(r: Rates, display: string): Option<real> {
    if display == "USD" then Some(1.0)
    else if Rate(r.fiat, display).Some? then Some(r.fiat[display])
    else if Rate(r.crypto, display).Some? then Some(1.0 / r.crypto[display])
    else None
  }

  lemma Divide(amount: real, rate: real)
    requires rate > 0.0
    ensures amount / rate == amount * (1.0 / rate) && 1.0 / rate > 0.0
  {
  }

  /** Each leg multiplies by one positive factor, and is known or not whatever the amount. */
  lemma UsdIsLinear(r: Rates, amount: real, currency: string)
    ensures ToUsd(r, amount, currency).Some? <==> UsdWorth(r, currency).Some?
    ensures UsdWorth(r, currency).Some? ==>
              UsdWorth(r, currency).value > 0.0
              && ToUsd(r, amount, currency).value == amount * UsdWorth(r, currency).value
  {
    if Rate(r.fiat, currency).Some? {
      Divide(amount, r.fiat[currency]);
    }
  }

  lemma FromUsdIsLinear(r: Rates, usd: real, display: string)
    ensures FromUsd(r, usd, display).Some? <==> WorthOfUsd(r, display).Some?
    ensures WorthOfUsd(r, display).Some? ==>
              WorthOfUsd(r, display).value > 0.0
              && FromUsd(r, usd, display).value == usd * WorthOfUsd(r, display).value
  {
    if Rate(r.crypto, display).Some? {
      Divide(usd, r.crypto[display]);
    }
  }

  // ---------------------------------------------------------------------
  // Balances carried forward.
  // ---------------------------------------------------------------------

  type Balances = map<int, real>

  /** `d` is the latest collected day on or before `day`. */
  ghost predicate Latest(balances: Balances, day: int, d: int) {
    d in balances && d <= day && forall e :: e in balances && e <= day ==> e <= d
  }

  ghost predicate Established(balances: Balances, day: int) {
    exists d :: d in balances && d <= day
  }

  ghost predicate Ascending(days: seq<int>) {
    forall i, j :: 0 <= i < j < |days| ==> days[i] < days[j]
  }

  /** The days a platform was collected, in order. */
  ghost predicate DaysOf(days: seq<int>, balances: Balances) {
    Ascending(days) && forall d :: d in days <==> d in balances
  }

  /** The source's loop over a platform's days finds the balance on the latest collected
      day on or before the day asked for, and none when there is no such day. */
  method AsOf(days: seq<int>, balances: Balances, day: int) returns (val: real, found: bool)
    requires DaysOf(days, balances)
    ensures found <==> Established(balances, day)
    ensures forall d :: Latest(balances, day, d) ==> val == balances[d]
    ensures found ==> exists d :: Latest(balances, day, d)
  {
    val, found := 0.0, false;
    for i := 0 to |days|
      invariant found <==> i > 0
      invariant forall k :: 0 <= k < i ==> days[k] <= day
      invariant found ==> days[i - 1] in balances && val == balances[days[i - 1]]
    {
      var d := days[i];
      if d <= day {
        val := balances[d];
        found := true;
        continue;
      }
      assert forall e :: e in balances && e <= day ==> exists k :: 0 <= k < i && days[k] == e;
      assert i > 0 ==> Latest(balances, day, days[i - 1]);
      return;
    }
    assert found ==> Latest(balances, day, days[|days| - 1]);
  }

  lemma {:induction false} LatestExists(day: int, days: set<int>) returns (most: int)
    requires exists d :: d in days && d <= day
    ensures most in days && most <= day && forall e :: e in days && e <= day ==> e <= most
    decreases days
  {
    var one :| one in days && one <= day;
    var rest := days - {one};
    most := one;
    if exists d :: d in rest && d <= day {
      var other := LatestExists(day, rest);
      most := if other < one then one else other;
    }
    forall e | e in days && e <= day
      ensures e <= most
    {
      assert e == one || e in rest;
    }
  }

  lemma SomeLatest(balances: Balances, day: int)
    requires Established(balances, day)
    ensures exists d :: Latest(balances, day, d)
  {
    var d := LatestExists(day, balances.Keys);
    assert Latest(balances, day, d);
  }

  ghost function BalanceOn(balances: Balances, day: int): Option<real> {
    if Established(balances, day) then
      SomeLatest(balances, day);
      var d :| Latest(balances, day, d);
      Some(balances[d])
    else None
  }

  lemma BalanceOnIs(balances: Balances, day: int, d: int)
    requires Latest(balances, day, d)
    ensures BalanceOn(balances, day) == Some(balances[d])
  {
  }

  // ---------------------------------------------------------------------
  // Accrual between two days.
  // ---------------------------------------------------------------------

  datatype Platform = Platform(balances: Balances, currency: string)

  function Gain(from: Option<real>, to: Option<real>): real {
    if from.Some? && to.Some? && to.value > from.value then to.value - from.value else 0.0
  }

  ghost function Shown(r: Rates, p: Platform, display: string, day: int): Option<real> {
    match BalanceOn(p.balances, day)
    case Some(balance) => ToDisplay(r, balance, p.currency, display)
    case None => None
  }

  /** What the platform shows more of on the later day; nothing without both figures. */
  ghost function Delta(r: Rates, p: Platform, display: string, from: int, to: int): real {
    Gain(Shown(r, p, display, from), Shown(r, p, display, to))
  }

  method PlatformDelta(r: Rates, p: Platform, days: seq<int>, display: string, fromDay: int, toDay: int)
    returns (delta: real)
    requires DaysOf(days, p.balances)
    ensures delta == Delta(r, p, display, fromDay, toDay)
  {
    var fromBal, fromOk := AsOf(days, p.balances, fromDay);
    if !fromOk {
      return 0.0;
    }
    var toBal, toOk := AsOf(days, p.balances, toDay);
    if !toOk {
      return 0.0;
    }
    ghost var d :| Latest(p.balances, fromDay, d);
    ghost var e :| Latest(p.balances, toDay, e);
    BalanceOnIs(p.balances, fromDay, d);
    BalanceOnIs(p.balances, toDay, e);
    var fromDisp := ToDisplay(r, fromBal, p.currency, display);
    if fromDisp.None? {
      return 0.0;
    }
    var toDisp := ToDisplay(r, toBal, p.currency, display);
    if toDisp.None? {
      return 0.0;
    }
    delta := if toDisp.value - fromDisp.value > 0.0 then toDisp.value - fromDisp.value else 0.0;
  }

  /** A conversion by one positive factor, known or not whatever the amount. */
  predicate By(amount: real, result: Option<real>, factor: Option<real>) {
    && (result.Some? <==> factor.Some?)
    && (factor.Some? ==> factor.value > 0.0 && result.value == amount * factor.value)
  }

  lemma UsdBy(r: Rates, amount: real, currency: string)
    ensures By(amount, ToUsd(r, amount, currency), UsdWorth(r, currency))
  {
    UsdIsLinear(r, amount, currency);
  }

  lemma DisplayBy(r: Rates, usd: real, display: string)
    ensures By(usd, FromUsd(r, usd, display), WorthOfUsd(r, display))
  {
    FromUsdIsLinear(r, usd, display);
  }

  /** Two conversions, one after the other. */
  predicate ByBoth(amount: real, result: Option<real>, a: Option<real>, b: Option<real>) {
    if a.Some? && b.Some?
    then a.value > 0.0 && b.value > 0.0 && result.Some? && result.value == amount * a.value * b.value
    else result.None?
  }

  lemma OneAfterOther(amount: real, usd: Option<real>, result: Option<real>, a: Option<real>, b: Option<real>)
    requires By(amount, usd, a) && (if usd.Some? then By(usd.value, result, b) else result.None?)
    ensures ByBoth(amount, result, a, b)
  {
    if a.Some? && b.Some? {
      Substituted(usd.value, amount * a.value, b.value);
    }
  }

  lemma Substituted(x: real, y: real, b: real)
    requires x == y
    ensures x * b == y * b
  {
  }

  lemma ToDisplayBy(r: Rates, amount: real, currency: string, display: string)
    ensures ByBoth(amount, ToDisplay(r, amount, currency, display), UsdWorth(r, currency), WorthOfUsd(r, display))
  {
    UsdBy(r, amount, currency);
    var usd := ToUsd(r, amount, currency);
    if usd.Some? {
      DisplayBy(r, usd.value, display);
    }
    OneAfterOther(amount, usd, ToDisplay(r, amount, currency, display), UsdWorth(r, currency), WorthOfUsd(r, display));
  }

  lemma Rise(x: real, y: real, unit: real)
    requires unit > 0.0
    ensures y * unit - x * unit == (y - x) * unit
    ensures y > x <==> y * unit > x * unit
  {
    if y > x {
      assert (y - x) * unit > 0.0;
    } else {
      assert (x - y) * unit >= 0.0;
    }
  }

  /** The rise of a figure from `x` to `y` in the display currency. */
  function RiseBy(x: real, y: real, a: Option<real>, b: Option<real>): real {
    if a.Some? && b.Some? && y > x then (y - x) * a.value * b.value else 0.0
  }

  lemma GainIsRise(x: real, y: real, shownX: Option<real>, shownY: Option<real>, a: Option<real>, b: Option<real>)
    ensures ByBoth(x, shownX, a, b) && ByBoth(y, shownY, a, b) ==> Gain(shownX, shownY) == RiseBy(x, y, a, b)
  {
    if ByBoth(x, shownX, a, b) && a.Some? && b.Some? {
      Rise(x, y, a.value);
      Rise(x * a.value, y * a.value, b.value);
    }
  }

  /** WHAT A PLATFORM EARNED. The rise of its own balance between the latest days collected, in
      the display currency, and nothing when it fell or no rate is known. */
  lemma DeltaIsTheRise(r: Rates, p: Platform, display: string, start: int, end: int, d: int, e: int)
    requires Latest(p.balances, start, d) && Latest(p.balances, end, e)
    ensures Delta(r, p, display, start, end)
         == RiseBy(p.balances[d], p.balances[e], UsdWorth(r, p.currency), WorthOfUsd(r, display))
  {
    var x, y := p.balances[d], p.balances[e];
    BalanceOnIs(p.balances, start, d);
    BalanceOnIs(p.balances, end, e);
    ToDisplayBy(r, x, p.currency, display);
    ToDisplayBy(r, y, p.currency, display);
    GainIsRise(x, y, ToDisplay(r, x, p.currency, display), ToDisplay(r, y, p.currency, display),
               UsdWorth(r, p.currency), WorthOfUsd(r, display));
  }

  /** Without a balance on or before either day nothing is earned. */
  lemma NothingWithoutBalances(r: Rates, p: Platform, display: string, start: int, end: int)
    requires !Established(p.balances, start) || !Established(p.balances, end)
    ensures Delta(r, p, display, start, end) == 0.0
  {
  }

  /** Accrual over two periods is at least the accrual over both at once. */
  lemma {:induction false} DeltaIsSubadditive(r: Rates, p: Platform, display: string, a: int, b: int, c: int)
    requires a <= b <= c
    ensures 0.0 <= Delta(r, p, display, a, c) <= Delta(r, p, display, a, b) + Delta(r, p, display, b, c)
  {
  }

  /** Collected balances never drop. */
  ghost predicate NeverDrops(balances: Balances) {
    forall d, e :: d in balances && e in balances && d <= e ==> balances[d] <= balances[e]
  }

  /** With a baseline on the first day and balances that never drop, nothing is counted
      twice: the parts add up to the whole. */
  lemma {:induction false} DeltaIsAdditive(r: Rates, p: Platform, display: string, a: int, b: int, c: int)
    requires a <= b <= c && NeverDrops(p.balances) && Established(p.balances, a)
    ensures Delta(r, p, display, a, c) == Delta(r, p, display, a, b) + Delta(r, p, display, b, c)
  {
    ShownRises(r, p, display, a, b);
    ShownRises(r, p, display, b, c);
  }

  lemma Scaled(x: real, y: real, f: real)
    requires x <= y && f > 0.0
    ensures x * f <= y * f && x / f <= y / f
  {
    assert y / f - x / f == (y - x) / f;
  }

  lemma UsdRises(r: Rates, x: real, y: real, currency: string)
    requires x <= y
    ensures ToUsd(r, x, currency).Some? <==> ToUsd(r, y, currency).Some?
    ensures ToUsd(r, x, currency).Some? ==> ToUsd(r, x, currency).value <= ToUsd(r, y, currency).value
  {
    if Rate(r.crypto, currency).Some? {
      Scaled(x, y, r.crypto[currency]);
    } else if Rate(r.fiat, currency).Some? {
      Scaled(x, y, r.fiat[currency]);
    }
  }

  lemma FromUsdRises(r: Rates, x: real, y: real, display: string)
    requires x <= y
    ensures FromUsd(r, x, display).Some? <==> FromUsd(r, y, display).Some?
    ensures FromUsd(r, x, display).Some? ==> FromUsd(r, x, display).value <= FromUsd(r, y, display).value
  {
    if Rate(r.fiat, display).Some? {
      Scaled(x, y, r.fiat[display]);
    } else if Rate(r.crypto, display).Some? {
      Scaled(x, y, r.crypto[display]);
    }
  }

  lemma ShownRises(r: Rates, p: Platform, display: string, a: int, b: int)
    requires a <= b && NeverDrops(p.balances) && Established(p.balances, a)
    ensures Established(p.balances, b)
    ensures Shown(r, p, display, a).Some? <==> Shown(r, p, display, b).Some?
    ensures Shown(r, p, display, a).Some? ==> Shown(r, p, display, a).value <= Shown(r, p, display, b).value
  {
    var x, y := BalanceOn(p.balances, a).value, BalanceOn(p.balances, b).value;
    UsdRises(r, x, y, p.currency);
    if ToUsd(r, x, p.currency).Some? {
      FromUsdRises(r, ToUsd(r, x, p.currency).value, ToUsd(r, y, p.currency).value, display);
    }
  }

  // ---------------------------------------------------------------------
  // All platforms, and the month beside its days.
  // ---------------------------------------------------------------------

  ghost function SumDelta(r: Rates, platforms: seq<Platform>, display: string, from: int, to: int, n: nat): real
    requires n <= |platforms|
  {
    if n == 0 then 0.0
    else SumDelta(r, platforms, display, from, to, n - 1) + Delta(r, platforms[n - 1], display, from, to)
  }

  ghost function Earned(r: Rates, platforms: seq<Platform>, display: string, from: int, to: int): real {
    SumDelta(r, platforms, display, from, to, |platforms|)
  }

  lemma {:induction false} SumIsSubadditive(r: Rates, platforms: seq<Platform>, display: string, a: int, b: int, c: int, n: nat)
    requires a <= b <= c && n <= |platforms|
    ensures 0.0 <= SumDelta(r, platforms, display, a, c, n)
    ensures SumDelta(r, platforms, display, a, c, n)
            <= SumDelta(r, platforms, display, a, b, n) + SumDelta(r, platforms, display, b, c, n)
  {
    if n > 0 {
      SumIsSubadditive(r, platforms, display, a, b, c, n - 1);
      DeltaIsSubadditive(r, platforms[n - 1], display, a, b, c);
    }
  }

  /** The daily figures of the days after `start` up to `end`. */
  ghost function DailySum(r: Rates, platforms: seq<Platform>, display: string, start: int, end: int): real
    requires start <= end
    decreases end - start
  {
    if start == end then 0.0
    else DailySum(r, platforms, display, start, end - 1) + Earned(r, platforms, display, end - 1, end)
  }

  /** A longer period never shows more than its days together. */
  lemma {:induction false} PeriodAtMostItsDays(r: Rates, platforms: seq<Platform>, display: string, start: int, end: int)
    requires start < end
    ensures Earned(r, platforms, display, start, end) <= DailySum(r, platforms, display, start, end)
    decreases end - start
  {
    if start + 1 < end {
      PeriodAtMostItsDays(r, platforms, display, start, end - 1);
      SumIsSubadditive(r, platforms, display, start, end - 1, end, |platforms|);
    } else {
      assert DailySum(r, platforms, display, start, start) == 0.0;
    }
  }

  // ---------------------------------------------------------------------
  // The summary.
  // ---------------------------------------------------------------------

  /** One row of the daily balances, oldest day first. */
  datatype Record = Record(platform: string, day: int, balance: real, currency: string)

  /** A platform's balances: on a repeated day the last row stands. */
  function BalancesOf(records: seq<Record>, platform: string, n: nat): Balances
    requires n <= |records|
  {
    if n == 0 then map[]
    else if records[n - 1].platform == platform then
      BalancesOf(records, platform, n - 1)[records[n - 1].day := records[n - 1].balance]
    else BalancesOf(records, platform, n - 1)
  }

  function CurrencyOf(records: seq<Record>, platform: string, n: nat): string
    requires n <= |records|
  {
    if n == 0 then ""
    else if records[n - 1].platform == platform then records[n - 1].currency
    else CurrencyOf(records, platform, n - 1)
  }

  /** The balance of a day is that of its last row, and the currency that of the last row. */
  lemma {:induction false} LastRowStands(records: seq<Record>, platform: string, n: nat, k: nat)
    requires k < n <= |records| && records[k].platform == platform
    ensures (forall j :: k < j < n ==> !(records[j].platform == platform && records[j].day == records[k].day)) ==>
              var balances := BalancesOf(records, platform, n);
              records[k].day in balances && balances[records[k].day] == records[k].balance
    ensures (forall j :: k < j < n ==> records[j].platform != platform) ==>
              CurrencyOf(records, platform, n) == records[k].currency
  {
    if k < n - 1 {
      LastRowStands(records, platform, n - 1, k);
    }
  }

  /** A platform has no other days than those of its rows. */
  lemma {:induction false} OnlyItsRows(records: seq<Record>, platform: string, n: nat, day: int)
    requires n <= |records| && day in BalancesOf(records, platform, n)
    ensures exists k :: 0 <= k < n && records[k].platform == platform && records[k].day == day
  {
    if !(records[n - 1].platform == platform && records[n - 1].day == day) {
      OnlyItsRows(records, platform, n - 1, day);
    }
  }

  /** What has been collected of one platform after `n` rows. */
  ghost predicate BookIs(book: map<string, Platform>, days: map<string, seq<int>>, records: seq<Record>, n: nat,
                         platform: string)
    requires n <= |records|
  {
    && (platform in book <==> exists k :: 0 <= k < n && records[k].platform == platform)
    && (platform in book <==> platform in days)
    && (platform in book ==>
          && book[platform] == Platform(BalancesOf(records, platform, n), CurrencyOf(records, platform, n))
          && forall d :: d in days[platform] <==> d in book[platform].balances)
    && (platform !in book ==> BalancesOf(records, platform, n) == map[])
  }

  ghost predicate InOrder(book: map<string, Platform>, days: map<string, seq<int>>, platform: string) {
    platform in book && platform in days && DaysOf(days[platform], book[platform].balances)
  }

  method Collect(records: seq<Record>) returns (book: map<string, Platform>, days: map<string, seq<int>>)
    ensures forall platform :: BookIs(book, days, records, |records|, platform)
    ensures forall platform :: platform in days ==> InOrder(book, days, platform)
  {
    book, days := map[], map[];
    for i := 0 to |records|
      invariant forall platform :: BookIs(book, days, records, i, platform)
    {
      book, days := CollectOne(records, i, i + 1, book, days);
    }
    var left := days.Keys;
    while left != {}
      invariant left <= days.Keys
      invariant forall platform :: BookIs(book, days, records, |records|, platform)
      invariant forall platform :: platform in days && platform !in left ==> InOrder(book, days, platform)
      decreases left
    {
      var platform :| platform in left;
      assert BookIs(book, days, records, |records|, platform);
      var inOrder := SortDays(days[platform]);
      ghost var was := days;
      days := days[platform := inOrder];
      forall other
        ensures BookIs(book, days, records, |records|, other)
      {
        assert BookIs(book, was, records, |records|, other);
      }
      left := left - {platform};
    }
  }

  method CollectOne(records: seq<Record>, i: nat, ghost next: nat, book: map<string, Platform>, days: map<string, seq<int>>)
    returns (book': map<string, Platform>, days': map<string, seq<int>>)
    requires i < |records| && next == i + 1 && forall platform :: BookIs(book, days, records, i, platform)
    ensures forall platform :: BookIs(book', days', records, next, platform)
  {
    var b := records[i];
    assert BookIs(book, days, records, i, b.platform);
    var balances := if b.platform in book then book[b.platform].balances else map[];
    var seen := if b.platform in days then days[b.platform] else [];
    days' := days[b.platform := if b.day in balances then seen else seen + [b.day]];
    book' := book[b.platform := Platform(balances[b.day := b.balance], b.currency)];
    forall platform
      ensures BookIs(book', days', records, next, platform)
    {
      assert BookIs(book, days, records, i, platform);
    }
  }

  method SortDays(days: seq<int>) returns (inOrder: seq<int>)
    ensures Ascending(inOrder) && forall d :: d in inOrder <==> d in days
  {
    inOrder := [];
    for i := 0 to |days|
      invariant Ascending(inOrder) && forall d :: d in inOrder <==> d in days[..i]
    {
      if days[i] !in inOrder {
        inOrder := InsertDay(inOrder, days[i]);
      }
      assert days[..i + 1] == days[..i] + [days[i]];
    }
    assert days[..|days|] == days;
  }

  method InsertDay(days: seq<int>, day: int) returns (more: seq<int>)
    requires Ascending(days) && day !in days
    ensures Ascending(more) && forall d :: d in more <==> d in days || d == day
  {
    var i := 0;
    while i < |days| && days[i] < day
      invariant i <= |days| && forall k :: 0 <= k < i ==> days[k] < day
    {
      i := i + 1;
    }
    more := days[..i] + [day] + days[i..];
    assert i < |days| ==> days[i] in days;
  }

  const DAYS_SHOWN := 30

  datatype Summary = Summary(today: real, yesterday: real, month: real, lastMonth: real, daily: seq<real>)

  /** The days of every platform, in the platforms' order. */
  ghost predicate ListedFor(days: seq<seq<int>>, platforms: seq<Platform>) {
    |days| == |platforms| && forall i :: 0 <= i < |platforms| ==> DaysOf(days[i], platforms[i].balances)
  }

  method SumOf(r: Rates, platforms: seq<Platform>, days: seq<seq<int>>, display: string, fromDay: int, toDay: int)
    returns (sum: real)
    requires ListedFor(days, platforms)
    ensures sum == Earned(r, platforms, display, fromDay, toDay)
  {
    sum := 0.0;
    for i := 0 to |platforms|
      invariant sum == SumDelta(r, platforms, display, fromDay, toDay, i)
    {
      var delta := PlatformDelta(r, platforms[i], days[i], display, fromDay, toDay);
      sum := sum + delta;
    }
  }

  /** What all platforms earned from one day to the next. */
  ghost function DayEarned(r: Rates, platforms: seq<Platform>, display: string, day: int): real {
    Earned(r, platforms, display, day, day + 1)
  }

  /** The last thirty days, oldest first. */
  method DailySeries(r: Rates, platforms: seq<Platform>, days: seq<seq<int>>, display: string, today: int)
    returns (daily: seq<real>)
    requires ListedFor(days, platforms)
    ensures |daily| == DAYS_SHOWN
    ensures forall i :: 0 <= i < DAYS_SHOWN ==> daily[i] == DayEarned(r, platforms, display, today - DAYS_SHOWN + i)
    ensures Total(daily, DAYS_SHOWN) == DailySum(r, platforms, display, today - DAYS_SHOWN, today)
  {
    daily := [];
    var i := DAYS_SHOWN - 1;
    while i >= 0
      invariant -1 <= i < DAYS_SHOWN && |daily| == DAYS_SHOWN - 1 - i
      invariant forall k :: 0 <= k < |daily| ==> daily[k] == DayEarned(r, platforms, display, today - DAYS_SHOWN + k)
    {
      var amount := SumOf(r, platforms, days, display, today - i - 1, today - i);
      daily := daily + [amount];
      i := i - 1;
    }
    DaysAddUp(r, platforms, display, daily, today - DAYS_SHOWN, DAYS_SHOWN);
  }

  lemma {:induction false} DaysAddUp(r: Rates, platforms: seq<Platform>, display: string, daily: seq<real>, first: int, n: nat)
    requires n <= |daily| && forall k :: 0 <= k < n ==> daily[k] == DayEarned(r, platforms, display, first + k)
    ensures Total(daily, n) == DailySum(r, platforms, display, first, first + n)
  {
    if n > 0 {
      DaysAddUp(r, platforms, display, daily, first, n - 1);
    }
  }

  /** The figures of one summary. `latest`: the latest collected day, or today. */
  method Summarise(r: Rates, platforms: seq<Platform>, days: seq<seq<int>>, display: string,
                   today: int, latest: int, beforeMonth: int, beforeLastMonth: int)
    returns (s: Summary)
    requires ListedFor(days, platforms)
    ensures s.today == Earned(r, platforms, display, today - 1, today)
    ensures s.yesterday == Earned(r, platforms, display, today - 2, today - 1)
    ensures s.month == Earned(r, platforms, display, beforeMonth, latest)
    ensures s.lastMonth == Earned(r, platforms, display, beforeLastMonth, beforeMonth)
    ensures |s.daily| == 30
    ensures forall i :: 0 <= i < 30 ==> s.daily[i] == DayEarned(r, platforms, display, today - 30 + i)
    ensures Total(s.daily, DAYS_SHOWN) == DailySum(r, platforms, display, today - DAYS_SHOWN, today)
  {
    var todayEarned := SumOf(r, platforms, days, display, today - 1, today);
    var yesterdayEarned := SumOf(r, platforms, days, display, today - 2, today - 1);
    var month := SumOf(r, platforms, days, display, beforeMonth, latest);
    var lastMonth := SumOf(r, platforms, days, display, beforeLastMonth, beforeMonth);
    var daily := DailySeries(r, platforms, days, display, today);
    s := Summary(todayEarned, yesterdayEarned, month, lastMonth, daily);
  }

  function Total(amounts: seq<real>, n: nat): real
    requires n <= |amounts|
  {
    if n == 0 then 0.0 else Total(amounts, n - 1) + amounts[n - 1]
  }

  lemma {:induction false} DaysOnlyAdd(r: Rates, platforms: seq<Platform>, display: string, first: int, start: int,
                                       latest: int, end: int)
    requires first <= start <= latest <= end
    ensures DailySum(r, platforms, display, start, latest) <= DailySum(r, platforms, display, first, end)
    decreases end - first
  {
    if latest < end {
      DaysOnlyAdd(r, platforms, display, first, start, latest, end - 1);
      SumIsSubadditive(r, platforms, display, end - 1, end, end, |platforms|);
    } else if first < end && start < end {
      DaysOnlyAdd(r, platforms, display, first, start, end - 1, end - 1);
    } else if first < end {
      DaysOnlyAdd(r, platforms, display, first, end - 1, end - 1, end - 1);
      SumIsSubadditive(r, platforms, display, end - 1, end, end, |platforms|);
    }
  }

  /** No day after `last` was collected. */
  ghost predicate NothingAfter(platforms: seq<Platform>, last: int) {
    forall i, d :: 0 <= i < |platforms| && d in platforms[i].balances ==> d <= last
  }

  lemma CarriedStays(balances: Balances, last: int, day: int)
    requires last <= day && forall d :: d in balances ==> d <= last
    ensures BalanceOn(balances, day) == BalanceOn(balances, last)
  {
    if Established(balances, day) {
      SomeLatest(balances, day);
      var d :| Latest(balances, day, d);
      BalanceOnIs(balances, day, d);
      BalanceOnIs(balances, last, d);
    }
  }

  /** Between days after the last collected one nothing accrues. */
  lemma {:induction false} NothingAccrues(r: Rates, platforms: seq<Platform>, display: string, last: int, a: int, b: int, n: nat)
    requires NothingAfter(platforms, last) && last <= a && last <= b && n <= |platforms|
    ensures SumDelta(r, platforms, display, a, b, n) == 0.0
  {
    if n > 0 {
      NothingAccrues(r, platforms, display, last, a, b, n - 1);
      CarriedStays(platforms[n - 1].balances, last, a);
      CarriedStays(platforms[n - 1].balances, last, b);
    }
  }

  lemma {:induction false} DaysAccrueNothing(r: Rates, platforms: seq<Platform>, display: string, start: int, end: int)
    requires NothingAfter(platforms, start) && start <= end
    ensures DailySum(r, platforms, display, start, end) == 0.0
    decreases end - start
  {
    if start < end {
      DaysAccrueNothing(r, platforms, display, start, end - 1);
      NothingAccrues(r, platforms, display, start, end - 1, end, |platforms|);
    }
  }

  /** The month's figure is at most the thirty daily figures, on each of its first thirty
      days. */
  lemma {:induction false} MonthAtMostDaily(r: Rates, platforms: seq<Platform>, display: string, today: int, latest: int, beforeMonth: int)
    requires latest <= today && NothingAfter(platforms, latest)
    requires today - DAYS_SHOWN <= beforeMonth < today
    ensures Earned(r, platforms, display, beforeMonth, latest)
            <= DailySum(r, platforms, display, today - DAYS_SHOWN, today)
  {
    if beforeMonth < latest {
      PeriodAtMostItsDays(r, platforms, display, beforeMonth, latest);
      DaysOnlyAdd(r, platforms, display, today - DAYS_SHOWN, beforeMonth, latest, today);
    } else {
      NothingAccrues(r, platforms, display, latest, beforeMonth, latest, |platforms|);
      DaysOnlyAdd(r, platforms, display, today - DAYS_SHOWN, beforeMonth, beforeMonth, today);
    }
  }

  /** On the thirty-first day the first of the month is no longer among the days shown, and
      what was earned on it is in the month's figure alone. */
  lemma ThirtyFirstDayIsMissed(r: Rates, beforeMonth: int)
    ensures var platforms := [Platform(map[beforeMonth := 0.0, beforeMonth + 1 := 1.0], "USD")];
            var today := beforeMonth + 31;
            && NothingAfter(platforms, beforeMonth + 1)
            && Earned(r, platforms, "USD", beforeMonth, beforeMonth + 1) == 1.0
            && DailySum(r, platforms, "USD", today - DAYS_SHOWN, today) == 0.0
  {
    var balances := map[beforeMonth := 0.0, beforeMonth + 1 := 1.0];
    var platforms := [Platform(balances, "USD")];
    DaysAccrueNothing(r, platforms, "USD", beforeMonth + 1, beforeMonth + 31);
    BalanceOnIs(balances, beforeMonth, beforeMonth);
    BalanceOnIs(balances, beforeMonth + 1, beforeMonth + 1);
    var start := SumDelta(r, platforms, "USD", beforeMonth, beforeMonth + 1, 0);
    assert Delta(r, platforms[0], "USD", beforeMonth, beforeMonth + 1) == 1.0;
    assert start == 0.0;
  }
}
