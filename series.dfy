/**
 * The per-day series of backend/db.js: `getSalesOverTime` and
 * `getConversationsOverTime`. Each selects one user's rows dated on or after
 * the first day of the period, groups them by calendar day and reports one
 * point per day, oldest day first.
 */
module Series {
  import opened Seqs
  import opened Store

  /**
   * `date('now', '-N days')` as a day number. A timestamp text
   * `YYYY-MM-DD HH:MM:SS` is at least the bare date text `YYYY-MM-DD`
   * exactly when its own date is that day or later, so the comparison
   * `sale_date >= date(...)` is a comparison of calendar days.
   */
  function WindowStart(now: Timestamp, period: nat): int { Day(now) - period }

  /** The selection of one series: the owner and the first day counted. */
  datatype Since = Since(userId: UserId, fromDay: int)

  // --------------------------------------------------------- sales per day

  /** One row of `getSalesOverTime`. */
  datatype SalesPoint = SalesPoint(date: int, salesCount: nat, totalRevenue: Cents)

  /** `WHERE user_id = ? AND status = 'confirmed' AND sale_date >= date('now', '-N days')`. */
  predicate CountedSale(s: Sale, w: Since) { s.userId == w.userId && s.status == Confirmed && Day(s.saleDate) >= w.fromDay }

  function SaleDay(s: Sale): int { Day(s.saleDate) }
  predicate SaleOn(s: Sale, d: int) { Day(s.saleDate) == d }

  /** The rows the sales series is computed from. */
  function WindowSales(t: Tables, userId: UserId, period: nat, now: Timestamp): seq<Sale>
  {
    Where(t.sales, CountedSale, Since(userId, WindowStart(now, period)))
  }

  /** Some row falls on day `d`: the day forms a group. */
  predicate HasSaleOn(ss: seq<Sale>, d: int)
  {
    exists s :: s in ss && Day(s.saleDate) == d
  }

  /** The group of one day: `COUNT(*)` and `SUM(total_amount)`, never NULL over a non-empty group. */
  function SalesPointOn(ss: seq<Sale>, d: int): (p: SalesPoint)
    requires HasSaleOn(ss, d)
    ensures p.date == d && p.salesCount >= 1
  {
    var s :| s in ss && Day(s.saleDate) == d;
    assert s in Where(ss, SaleOn, d);
    var day := Where(ss, SaleOn, d);
    SalesPoint(d, |day|, AmountTotal(day))
  }

  function SalesPoints(ss: seq<Sale>, ds: seq<int>): (ps: seq<SalesPoint>)
    requires forall i :: 0 <= i < |ds| ==> HasSaleOn(ss, ds[i])
    ensures |ps| == |ds|
    ensures forall i :: 0 <= i < |ds| ==> ps[i] == SalesPointOn(ss, ds[i]) && ps[i].date == ds[i]
  {
    seq(|ds|, i requires 0 <= i < |ds| => SalesPointOn(ss, ds[i]))
  }

  /** Every day the grouping lists is the day of some counted sale. */
  lemma SaleDaysPresent(ss: seq<Sale>)
    ensures forall i :: 0 <= i < |AscendingKeys(ss, SaleDay)| ==> HasSaleOn(ss, AscendingKeys(ss, SaleDay)[i])
  {
    var ds := AscendingKeys(ss, SaleDay);
    forall i | 0 <= i < |ds| ensures HasSaleOn(ss, ds[i]) {
      assert ds[i] in ds;
    }
  }

  /**
   * `getSalesOverTime(userId, 'N days')` at time `now`: one point per day
   * with a counted sale, in strictly ascending date order, each day of
   * the period and each with at least one sale; each point counts and
   * totals exactly the counted sales of its day.
   */
  function SalesOverTime(t: Tables, userId: UserId, period: nat, now: Timestamp): (r: seq<SalesPoint>)
    ensures forall i, j :: 0 <= i < j < |r| ==> r[i].date < r[j].date
    ensures forall i :: 0 <= i < |r| ==> r[i].salesCount >= 1 && r[i].date >= WindowStart(now, period)
    ensures var ss := WindowSales(t, userId, period, now); forall i :: 0 <= i < |r| ==> r[i].salesCount == |Where(ss, SaleOn, r[i].date)| && r[i].totalRevenue == AmountTotal(Where(ss, SaleOn, r[i].date))
  {
    var ss := WindowSales(t, userId, period, now);
    SaleDaysPresent(ss);
    var ds := AscendingKeys(ss, SaleDay);
    var r := SalesPoints(ss, ds);
    forall i | 0 <= i < |r| ensures r[i].date >= WindowStart(now, period) {
      var s :| s in ss && Day(s.saleDate) == ds[i];
    }
    r
  }

  /** Some point of a series reports day `d`. */
  predicate ListsDay(ps: seq<SalesPoint>, d: int)
  {
    exists p :: p in ps && p.date == d
  }

  /** The series has a point for a day exactly when a counted sale falls on that day. */
  lemma SalesSeriesDays(t: Tables, userId: UserId, period: nat, now: Timestamp)
    ensures forall d :: ListsDay(SalesOverTime(t, userId, period, now), d) <==> HasSaleOn(WindowSales(t, userId, period, now), d)
  {
    var ss := WindowSales(t, userId, period, now);
    SaleDaysPresent(ss);
    SalesPointDays(ss, AscendingKeys(ss, SaleDay));
    assert SalesOverTime(t, userId, period, now) == SalesPoints(ss, AscendingKeys(ss, SaleDay));
  }

  lemma SalesPointDays(ss: seq<Sale>, ds: seq<int>)
    requires forall i :: 0 <= i < |ds| ==> HasSaleOn(ss, ds[i])
    requires forall s :: s in ss ==> SaleDay(s) in ds
    ensures forall d :: ListsDay(SalesPoints(ss, ds), d) <==> HasSaleOn(ss, d)
  {
    SalesDates(SalesPoints(ss, ds), ds);
    forall d | HasSaleOn(ss, d) ensures d in ds {
      var s :| s in ss && Day(s.saleDate) == d;
      assert SaleDay(s) in ds;
    }
    forall d | d in ds ensures HasSaleOn(ss, d) {
      var i :| 0 <= i < |ds| && ds[i] == d;
    }
  }

  lemma SalesDates(ps: seq<SalesPoint>, ds: seq<int>)
    requires |ps| == |ds| && forall i :: 0 <= i < |ds| ==> ps[i].date == ds[i]
    ensures forall d :: ListsDay(ps, d) <==> d in ds
  {
    forall d | d in ds ensures ListsDay(ps, d) {
      var i :| 0 <= i < |ds| && ds[i] == d;
      assert ps[i] in ps;
    }
    forall d | ListsDay(ps, d) ensures d in ds {
      var p :| p in ps && p.date == d;
      var i :| 0 <= i < |ps| && ps[i] == p;
      assert ds[i] == d;
    }
  }

  function SumSalesCounts(ps: seq<SalesPoint>): nat
  {
    if ps == [] then 0 else ps[0].salesCount + SumSalesCounts(ps[1..])
  }

  function SumRevenue(ps: seq<SalesPoint>): Cents
  {
    if ps == [] then 0 else ps[0].totalRevenue + SumRevenue(ps[1..])
  }

  /** The revenue of the groups of the days `ds`, added up. */
  function AmountsOver(ss: seq<Sale>, ds: seq<int>): Cents
  {
    if ds == [] then 0 else AmountTotal(Where(ss, SaleOn, ds[0])) + AmountsOver(ss, ds[1..])
  }

  /** The points' counts and revenues add up to the sizes and totals of the day groups. */
  lemma {:induction false} SalesCountsAreSizes(ss: seq<Sale>, ds: seq<int>)
    requires forall i :: 0 <= i < |ds| ==> HasSaleOn(ss, ds[i])
    ensures SumSalesCounts(SalesPoints(ss, ds)) == SizesOver(ss, SaleOn, ds)
    ensures SumRevenue(SalesPoints(ss, ds)) == AmountsOver(ss, ds)
  {
    if ds != [] {
      SalesCountsAreSizes(ss, ds[1..]);
      assert SalesPoints(ss, ds)[1..] == SalesPoints(ss, ds[1..]);
    }
  }

  lemma {:induction false} AmountsOverEmpty(ds: seq<int>)
    ensures AmountsOver([], ds) == 0
  {
    if ds != [] {
      AmountsOverEmpty(ds[1..]);
    }
  }

  /** Putting a sale in front of the table adds its amount to the group of its day, if that day is listed. */
  lemma {:induction false} AmountsOverCons(x: Sale, xs: seq<Sale>, ds: seq<int>)
    requires Distinct(ds)
    ensures AmountsOver([x] + xs, ds) == AmountsOver(xs, ds) + if SaleDay(x) in ds then x.totalAmount else 0
  {
    if ds != [] {
      AmountsOverCons(x, xs, ds[1..]);
      assert ([x] + xs)[1..] == xs;
      if SaleDay(x) == ds[0] {
        assert SaleDay(x) !in ds[1..];
        assert Where([x] + xs, SaleOn, ds[0]) == [x] + Where(xs, SaleOn, ds[0]);
        assert ([x] + Where(xs, SaleOn, ds[0]))[1..] == Where(xs, SaleOn, ds[0]);
      } else {
        assert Where([x] + xs, SaleOn, ds[0]) == Where(xs, SaleOn, ds[0]);
      }
    }
  }

  /** When every sale's day is listed once, the daily revenues add up to the whole revenue. */
  lemma {:induction false} AmountsOverAll(ss: seq<Sale>, ds: seq<int>)
    requires Distinct(ds)
    requires forall s :: s in ss ==> SaleDay(s) in ds
    ensures AmountsOver(ss, ds) == AmountTotal(ss)
  {
    if ss == [] {
      AmountsOverEmpty(ds);
    } else {
      assert ss == [ss[0]] + ss[1..];
      AmountsOverAll(ss[1..], ds);
      AmountsOverCons(ss[0], ss[1..], ds);
    }
  }

  /**
   * The days partition the counted sales: the point counts add up to the
   * number of counted sales, and the point revenues to their total amount.
   */
  lemma SalesSeriesPartition(t: Tables, userId: UserId, period: nat, now: Timestamp)
    ensures SumSalesCounts(SalesOverTime(t, userId, period, now)) == |WindowSales(t, userId, period, now)|
    ensures SumRevenue(SalesOverTime(t, userId, period, now)) == AmountTotal(WindowSales(t, userId, period, now))
  {
    var ss := WindowSales(t, userId, period, now);
    var ds := AscendingKeys(ss, SaleDay);
    SaleDaysPresent(ss);
    assert SalesOverTime(t, userId, period, now) == SalesPoints(ss, ds);
    SalesCountsAreSizes(ss, ds);
    assert Distinct(ds);
    GroupSizesSum(ss, SaleDay, SaleOn, ds);
    AmountsOverAll(ss, ds);
  }

  /** Only the user's own sales reach the series: the rest of the store does not matter. */
  lemma SalesSeriesIsolation(t: Tables, k: UserId, period: nat, now: Timestamp)
    ensures SalesOverTime(t, k, period, now) == SalesOverTime(OwnedBy(t, k), k, period, now)
  {
    WhereAbsorb(t.sales, CountedSale, Since(k, WindowStart(now, period)), OwnsSale, k);
  }

  // ------------------------------------------------- conversations per day

  /** One row of `getConversationsOverTime`. */
  datatype ConversationPoint = ConversationPoint(date: int, conversationCount: nat, completedCount: nat)

  /** `WHERE user_id = ? AND start_time >= date('now', '-N days')`. */
  predicate CountedConversation(c: Conversation, w: Since) { c.userId == w.userId && Day(c.startTime) >= w.fromDay }

  function ConversationDay(c: Conversation): int { Day(c.startTime) }
  predicate ConversationOn(c: Conversation, d: int) { Day(c.startTime) == d }
  predicate CompletedOn(c: Conversation, d: int) { Day(c.startTime) == d && c.status == Completed }

  function WindowConversations(t: Tables, userId: UserId, period: nat, now: Timestamp): seq<Conversation>
  {
    Where(t.conversations, CountedConversation, Since(userId, WindowStart(now, period)))
  }

  predicate HasConversationOn(cs: seq<Conversation>, d: int)
  {
    exists c :: c in cs && Day(c.startTime) == d
  }

  /** The group of one day: `COUNT(*)` and the count of its completed conversations. */
  function ConversationPointOn(cs: seq<Conversation>, d: int): (p: ConversationPoint)
    requires HasConversationOn(cs, d)
    ensures p.date == d && 1 <= p.conversationCount && p.completedCount <= p.conversationCount
  {
    var c :| c in cs && Day(c.startTime) == d;
    assert c in Where(cs, ConversationOn, d);
    WhereMonotone(cs, CompletedOn, d, ConversationOn, d);
    ConversationPoint(d, |Where(cs, ConversationOn, d)|, |Where(cs, CompletedOn, d)|)
  }

  function ConversationPoints(cs: seq<Conversation>, ds: seq<int>): (ps: seq<ConversationPoint>)
    requires forall i :: 0 <= i < |ds| ==> HasConversationOn(cs, ds[i])
    ensures |ps| == |ds|
    ensures forall i :: 0 <= i < |ds| ==> ps[i] == ConversationPointOn(cs, ds[i]) && ps[i].date == ds[i]
  {
    seq(|ds|, i requires 0 <= i < |ds| => ConversationPointOn(cs, ds[i]))
  }

  lemma ConversationDaysPresent(cs: seq<Conversation>)
    ensures forall i :: 0 <= i < |AscendingKeys(cs, ConversationDay)| ==> HasConversationOn(cs, AscendingKeys(cs, ConversationDay)[i])
  {
    var ds := AscendingKeys(cs, ConversationDay);
    forall i | 0 <= i < |ds| ensures HasConversationOn(cs, ds[i]) {
      assert ds[i] in ds;
    }
  }

  /**
   * `getConversationsOverTime(userId, 'N days')` at time `now`: one point
   * per day with a conversation, strictly ascending, each within the
   * period, with at least one conversation and no more completed ones
   * than conversations; each point counts exactly the conversations, and
   * the completed conversations, started on its day.
   */
  function ConversationsOverTime(t: Tables, userId: UserId, period: nat, now: Timestamp): (r: seq<ConversationPoint>)
    ensures forall i, j :: 0 <= i < j < |r| ==> r[i].date < r[j].date
    ensures forall i :: 0 <= i < |r| ==> r[i].date >= WindowStart(now, period)
    ensures forall i :: 0 <= i < |r| ==> 1 <= r[i].conversationCount && r[i].completedCount <= r[i].conversationCount
    ensures var cs := WindowConversations(t, userId, period, now); forall i :: 0 <= i < |r| ==> r[i].conversationCount == |Where(cs, ConversationOn, r[i].date)| && r[i].completedCount == |Where(cs, CompletedOn, r[i].date)|
  {
    var cs := WindowConversations(t, userId, period, now);
    ConversationDaysPresent(cs);
    var ds := AscendingKeys(cs, ConversationDay);
    var r := ConversationPoints(cs, ds);
    forall i | 0 <= i < |r| ensures r[i].date >= WindowStart(now, period) {
      var c :| c in cs && Day(c.startTime) == ds[i];
    }
    r
  }

  /** Some point of a conversation series reports day `d`. */
  predicate ListsConversationDay(ps: seq<ConversationPoint>, d: int)
  {
    exists p :: p in ps && p.date == d
  }

  /** The series has a point for a day exactly when a counted conversation started on that day. */
  lemma ConversationSeriesDays(t: Tables, userId: UserId, period: nat, now: Timestamp)
    ensures forall d :: ListsConversationDay(ConversationsOverTime(t, userId, period, now), d) <==> HasConversationOn(WindowConversations(t, userId, period, now), d)
  {
    var cs := WindowConversations(t, userId, period, now);
    ConversationDaysPresent(cs);
    ConversationPointDays(cs, AscendingKeys(cs, ConversationDay));
    assert ConversationsOverTime(t, userId, period, now) == ConversationPoints(cs, AscendingKeys(cs, ConversationDay));
  }

  lemma ConversationPointDays(cs: seq<Conversation>, ds: seq<int>)
    requires forall i :: 0 <= i < |ds| ==> HasConversationOn(cs, ds[i])
    requires forall c :: c in cs ==> ConversationDay(c) in ds
    ensures forall d :: ListsConversationDay(ConversationPoints(cs, ds), d) <==> HasConversationOn(cs, d)
  {
    ConversationDates(ConversationPoints(cs, ds), ds);
    forall d | HasConversationOn(cs, d) ensures d in ds {
      var c :| c in cs && Day(c.startTime) == d;
      assert ConversationDay(c) in ds;
    }
    forall d | d in ds ensures HasConversationOn(cs, d) {
      var i :| 0 <= i < |ds| && ds[i] == d;
    }
  }

  lemma ConversationDates(ps: seq<ConversationPoint>, ds: seq<int>)
    requires |ps| == |ds| && forall i :: 0 <= i < |ds| ==> ps[i].date == ds[i]
    ensures forall d :: ListsConversationDay(ps, d) <==> d in ds
  {
    forall d | d in ds ensures ListsConversationDay(ps, d) {
      var i :| 0 <= i < |ds| && ds[i] == d;
      assert ps[i] in ps;
    }
    forall d | ListsConversationDay(ps, d) ensures d in ds {
      var p :| p in ps && p.date == d;
      var i :| 0 <= i < |ps| && ps[i] == p;
      assert ds[i] == d;
    }
  }

  function SumConversationCounts(ps: seq<ConversationPoint>): nat
  {
    if ps == [] then 0 else ps[0].conversationCount + SumConversationCounts(ps[1..])
  }

  lemma {:induction false} ConversationCountsAreSizes(cs: seq<Conversation>, ds: seq<int>)
    requires forall i :: 0 <= i < |ds| ==> HasConversationOn(cs, ds[i])
    ensures SumConversationCounts(ConversationPoints(cs, ds)) == SizesOver(cs, ConversationOn, ds)
  {
    if ds != [] {
      ConversationCountsAreSizes(cs, ds[1..]);
      assert ConversationPoints(cs, ds)[1..] == ConversationPoints(cs, ds[1..]);
    }
  }

  /** The point counts add up to the number of the user's conversations in the period. */
  lemma ConversationSeriesPartition(t: Tables, userId: UserId, period: nat, now: Timestamp)
    ensures SumConversationCounts(ConversationsOverTime(t, userId, period, now)) == |WindowConversations(t, userId, period, now)|
  {
    var cs := WindowConversations(t, userId, period, now);
    var ds := AscendingKeys(cs, ConversationDay);
    ConversationDaysPresent(cs);
    assert ConversationsOverTime(t, userId, period, now) == ConversationPoints(cs, ds);
    ConversationCountsAreSizes(cs, ds);
    GroupSizesSum(cs, ConversationDay, ConversationOn, ds);
  }

  lemma ConversationSeriesIsolation(t: Tables, k: UserId, period: nat, now: Timestamp)
    ensures ConversationsOverTime(t, k, period, now) == ConversationsOverTime(OwnedBy(t, k), k, period, now)
  {
    WhereAbsorb(t.conversations, CountedConversation, Since(k, WindowStart(now, period)), OwnsConversation, k);
  }
}
