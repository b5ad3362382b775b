/**
 * `getDashboardMetrics` (backend/db.js): one aggregate row over
 * `users u LEFT JOIN conversations c LEFT JOIN sales s LEFT JOIN objections o
 * LEFT JOIN contact_reasons cr`, every join on the owner key alone and every
 * join carrying the same optional date window.
 *
 * The join is modelled literally: the row set is the cross product of the
 * user row with the padded (NULL-row) match lists, and each output column is
 * an aggregate over that row set. The lemmas then say what the columns are:
 * the DISTINCT counts are per-table counts, while the revenue SUM runs once
 * per joined row and so is multiplied by the fan-out of the other joins.
 */
module Metrics {
  import opened Optional
  import opened Seqs
  import opened Store

  /** A date condition inside a join's ON clause. A NULL bound matches nothing. */
  datatype DateFilter = AllDates | Between(from: Option<int>, to: Option<int>)

  /** `DATE(x) BETWEEN from AND to`, both ends inclusive; no condition at all for `AllDates`. */
  predicate Admits(f: DateFilter, day: int)
  {
    match f
    case AllDates => true
    case Between(from, to) => from.Some? && to.Some? && from.value <= day <= to.value
  }

  /** The window of a request: applied only when both a start and an end day are given. */
  function WindowFilter(startDate: Option<int>, endDate: Option<int>): (f: DateFilter)
    ensures f.AllDates? <==> startDate.None? || endDate.None?
    ensures forall d :: Admits(f, d) <==> f.AllDates? || startDate.value <= d <= endDate.value
  {
    if startDate.Some? && endDate.Some? then Between(startDate, endDate) else AllDates
  }

  // The ON clauses: `u.id = x.user_id` plus the window on the row's own timestamp.
  predicate ConversationJoins(c: Conversation, on: (UserId, DateFilter)) { c.userId == on.0 && Admits(on.1, Day(c.startTime)) }
  predicate SaleJoins(s: Sale, on: (UserId, DateFilter)) { s.userId == on.0 && Admits(on.1, Day(s.saleDate)) }
  predicate ObjectionJoins(o: Objection, on: (UserId, DateFilter)) { o.userId == on.0 && Admits(on.1, Day(o.timestamp)) }
  predicate ContactJoins(r: ContactReason, on: (UserId, DateFilter)) { r.userId == on.0 && Admits(on.1, Day(r.timestamp)) }

  /** The join filters of one query, one per joined table. */
  datatype Filters = Filters(conversations: DateFilter, sales: DateFilter, objections: DateFilter, contacts: DateFilter)

  function Uniform(f: DateFilter): Filters { Filters(f, f, f, f) }

  // The rows each join matches for user `k`.
  function JoinedConversations(t: Tables, k: UserId, fs: Filters): seq<Conversation> { Where(t.conversations, ConversationJoins, (k, fs.conversations)) }
  function JoinedSales(t: Tables, k: UserId, fs: Filters): seq<Sale> { Where(t.sales, SaleJoins, (k, fs.sales)) }
  function JoinedObjections(t: Tables, k: UserId, fs: Filters): seq<Objection> { Where(t.objections, ObjectionJoins, (k, fs.objections)) }
  function JoinedContacts(t: Tables, k: UserId, fs: Filters): seq<ContactReason> { Where(t.contactReasons, ContactJoins, (k, fs.contacts)) }

  type Tail = (Option<Objection>, Option<ContactReason>)
  type Middle = (Option<Sale>, Tail)
  type Inner = (Option<Conversation>, Middle)
  type JoinRow = (User, Inner)

  /**
   * The rows of the FROM clause with `WHERE u.id = key`: every user row with
   * that id, combined with every matched (or NULL) conversation, sale,
   * objection and contact reason. A NULL key matches no user.
   */
  function JoinRows(t: Tables, key: Option<UserId>, fs: Filters): seq<JoinRow>
  {
    if key.None? then []
    else
      var k := key.value;
      Cross(Where(t.users, HasId, k),
        Cross(Padded(JoinedConversations(t, k, fs)),
          Cross(Padded(JoinedSales(t, k, fs)),
            Cross(Padded(JoinedObjections(t, k, fs)), Padded(JoinedContacts(t, k, fs))))))
  }

  function ConversationColumn(rows: seq<JoinRow>): seq<Option<Conversation>> { Firsts(Seconds(rows)) }
  function SaleColumn(rows: seq<JoinRow>): seq<Option<Sale>> { Firsts(Seconds(Seconds(rows))) }
  function ObjectionColumn(rows: seq<JoinRow>): seq<Option<Objection>> { Firsts(Seconds(Seconds(Seconds(rows)))) }
  function ContactColumn(rows: seq<JoinRow>): seq<Option<ContactReason>> { Seconds(Seconds(Seconds(Seconds(rows)))) }

  function ConversationId(c: Conversation): int { c.id }
  function SaleId(s: Sale): int { s.id }
  function ObjectionId(o: Objection): int { o.id }
  function ContactId(r: ContactReason): int { r.id }
  predicate AnyRow<T>(x: T) { true }
  predicate IsCompleted(c: Conversation) { c.status == Completed }
  predicate WasHandled(o: Objection) { o.wasHandled }

  /** `COUNT(DISTINCT CASE WHEN keep(x) THEN x.id END)` over a column that may hold NULLs. */
  function ColumnIds<T(==, !new)>(col: seq<Option<T>>, id: T -> int, keep: T -> bool): set<int>
  {
    set x | x in col && x.Some? && keep(x.value) :: id(x.value)
  }

  /** The ids of the rows of one table that `keep` accepts. */
  function IdSet<T(==, !new)>(xs: seq<T>, id: T -> int, keep: T -> bool): set<int>
  {
    set x | x in xs && keep(x) :: id(x)
  }

  /** `CASE WHEN s.status = 'confirmed' THEN s.total_amount ELSE 0 END`. */
  function RevenueTerm(x: Option<Sale>): Cents
  {
    if x.Some? && x.value.status == Confirmed then x.value.totalAmount else 0
  }

  /** The SUM over a column of joined sale rows. */
  function ColumnRevenue(col: seq<Option<Sale>>): Cents
  {
    if col == [] then 0 else RevenueTerm(col[0]) + ColumnRevenue(col[1..])
  }

  /** The confirmed revenue of a list of sales, each sale counted once. */
  function ConfirmedRevenue(ss: seq<Sale>): Cents
  {
    if ss == [] then 0 else RevenueTerm(Some(ss[0])) + ConfirmedRevenue(ss[1..])
  }

  datatype Metrics = Metrics(
    totalConversations: nat,
    completedConversations: nat,
    totalSales: nat,
    totalRevenue: Cents,
    totalObjections: nat,
    handledObjections: nat,
    totalContacts: nat)

  const NoMetrics := Metrics(0, 0, 0, 0, 0, 0, 0)

  /** The SELECT list evaluated over the joined rows; SUM over no rows is NULL, which COALESCE turns into 0. */
  function MetricsOf(rows: seq<JoinRow>): Metrics
  {
    var revenueSum: Option<Cents> := if rows == [] then None else Some(ColumnRevenue(SaleColumn(rows)));
    Metrics(
      |ColumnIds(ConversationColumn(rows), ConversationId, AnyRow)|,
      |ColumnIds(ConversationColumn(rows), ConversationId, IsCompleted)|,
      |ColumnIds(SaleColumn(rows), SaleId, AnyRow)|,
      if revenueSum.None? then 0 else revenueSum.value,
      |ColumnIds(ObjectionColumn(rows), ObjectionId, AnyRow)|,
      |ColumnIds(ObjectionColumn(rows), ObjectionId, WasHandled)|,
      |ColumnIds(ContactColumn(rows), ContactId, AnyRow)|)
  }

  function MetricsQuery(t: Tables, key: Option<UserId>, fs: Filters): Metrics
  {
    MetricsOf(JoinRows(t, key, fs))
  }

  /**
   * `getDashboardMetrics(userId, startDate, endDate)` with the window bound
   * as its SQL text describes: every join restricted to the inclusive window
   * when both ends are given, no date condition otherwise.
   */
  function DashboardMetrics(t: Tables, userId: UserId, startDate: Option<int>, endDate: Option<int>): Metrics
  {
    MetricsQuery(t, Some(userId), Uniform(WindowFilter(startDate, endDate)))
  }

  // ------------------------------------------------------------ the columns

  lemma PositiveProduct(a: nat, b: nat)
    requires a > 0 && b > 0
    ensures a * b > 0
  {
  }

  /** The shape of the joined rows: every column is a matched list repeated by the other joins' fan-out. */
  lemma {:induction false} ConversationColumnShape(us: seq<User>, pc: seq<Option<Conversation>>, ps: seq<Option<Sale>>, po: seq<Option<Objection>>, pr: seq<Option<ContactReason>>)
    ensures ConversationColumn(Cross(us, Cross(pc, Cross(ps, Cross(po, pr))))) == Repeat(Stretch(pc, |ps| * (|po| * |pr|)), |us|)
  {
    var r1 := Cross(ps, Cross(po, pr));
    var r0 := Cross(pc, r1);
    SecondsOfCross(us, r0);
    FirstsOfRepeat(r0, |us|);
    FirstsOfCross(pc, r1);
  }

  lemma {:induction false} SaleColumnShape(us: seq<User>, pc: seq<Option<Conversation>>, ps: seq<Option<Sale>>, po: seq<Option<Objection>>, pr: seq<Option<ContactReason>>)
    ensures SaleColumn(Cross(us, Cross(pc, Cross(ps, Cross(po, pr))))) == Repeat(Repeat(Stretch(ps, |po| * |pr|), |pc|), |us|)
  {
    var r2 := Cross(po, pr);
    var r1 := Cross(ps, r2);
    var r0 := Cross(pc, r1);
    SecondsOfCross(us, r0);
    SecondsOfRepeat(r0, |us|);
    SecondsOfCross(pc, r1);
    FirstsOfRepeat(Repeat(r1, |pc|), |us|);
    FirstsOfRepeat(r1, |pc|);
    FirstsOfCross(ps, r2);
  }

  lemma {:induction false} ObjectionColumnShape(us: seq<User>, pc: seq<Option<Conversation>>, ps: seq<Option<Sale>>, po: seq<Option<Objection>>, pr: seq<Option<ContactReason>>)
    ensures ObjectionColumn(Cross(us, Cross(pc, Cross(ps, Cross(po, pr))))) == Repeat(Repeat(Repeat(Stretch(po, |pr|), |ps|), |pc|), |us|)
  {
    var r2 := Cross(po, pr);
    var r1 := Cross(ps, r2);
    var r0 := Cross(pc, r1);
    SecondsOfCross(us, r0);
    SecondsOfRepeat(r0, |us|);
    SecondsOfCross(pc, r1);
    SecondsOfRepeat(Repeat(r1, |pc|), |us|);
    SecondsOfRepeat(r1, |pc|);
    SecondsOfCross(ps, r2);
    FirstsOfRepeat(Repeat(Repeat(r2, |ps|), |pc|), |us|);
    FirstsOfRepeat(Repeat(r2, |ps|), |pc|);
    FirstsOfRepeat(r2, |ps|);
    FirstsOfCross(po, pr);
  }

  lemma {:induction false} ContactColumnShape(us: seq<User>, pc: seq<Option<Conversation>>, ps: seq<Option<Sale>>, po: seq<Option<Objection>>, pr: seq<Option<ContactReason>>)
    ensures ContactColumn(Cross(us, Cross(pc, Cross(ps, Cross(po, pr))))) == Repeat(Repeat(Repeat(Repeat(pr, |po|), |ps|), |pc|), |us|)
  {
    var r2 := Cross(po, pr);
    var r1 := Cross(ps, r2);
    var r0 := Cross(pc, r1);
    SecondsOfCross(us, r0);
    SecondsOfRepeat(r0, |us|);
    SecondsOfCross(pc, r1);
    SecondsOfRepeat(Repeat(r1, |pc|), |us|);
    SecondsOfRepeat(r1, |pc|);
    SecondsOfCross(ps, r2);
    SecondsOfRepeat(Repeat(Repeat(r2, |ps|), |pc|), |us|);
    SecondsOfRepeat(Repeat(r2, |ps|), |pc|);
    SecondsOfRepeat(r2, |ps|);
    SecondsOfCross(po, pr);
  }

  lemma ColumnIdsOfPadded<T(!new)>(xs: seq<T>, id: T -> int, keep: T -> bool)
    ensures ColumnIds(Padded(xs), id, keep) == IdSet(xs, id, keep)
  {
    var a := ColumnIds(Padded(xs), id, keep);
    forall v | v in IdSet(xs, id, keep) ensures v in a {
      var x :| x in xs && keep(x) && id(x) == v;
      assert Some(x) in Padded(xs);
    }
  }

  lemma ColumnIdsSameMembers<T(!new)>(a: seq<Option<T>>, b: seq<Option<T>>, id: T -> int, keep: T -> bool)
    requires forall x :: x in a <==> x in b
    ensures ColumnIds(a, id, keep) == ColumnIds(b, id, keep)
  {
  }

  lemma {:induction false} InStretchRepeat<T>(xs: seq<T>, a: nat, b: nat, c: nat, d: nat)
    requires a > 0 && b > 0 && c > 0 && d > 0
    ensures forall x :: x in Repeat(Stretch(xs, a), b) <==> x in xs
    ensures forall x :: x in Repeat(Repeat(Stretch(xs, a), b), c) <==> x in xs
    ensures forall x :: x in Repeat(Repeat(Repeat(Stretch(xs, a), b), c), d) <==> x in xs
  {
    InStretch(xs, a);
    InRepeat(Stretch(xs, a), b);
    InRepeat(Repeat(Stretch(xs, a), b), c);
    InRepeat(Repeat(Repeat(Stretch(xs, a), b), c), d);
  }

  lemma {:induction false} InRepeatRepeat<T>(xs: seq<T>, a: nat, b: nat, c: nat, d: nat)
    requires a > 0 && b > 0 && c > 0 && d > 0
    ensures forall x :: x in Repeat(Repeat(Repeat(Repeat(xs, a), b), c), d) <==> x in xs
  {
    InRepeat(xs, a);
    InRepeat(Repeat(xs, a), b);
    InRepeat(Repeat(Repeat(xs, a), b), c);
    InRepeat(Repeat(Repeat(Repeat(xs, a), b), c), d);
  }

  /**
   * When some row is present on each side, each column of the five-way cross
   * product holds exactly its own operand's rows. The column is passed in
   * already computed, which keeps the proof small.
   */
  lemma {:induction false} ConversationColumnMembers(col: seq<Option<Conversation>>, us: seq<User>, pc: seq<Option<Conversation>>, ps: seq<Option<Sale>>, po: seq<Option<Objection>>, pr: seq<Option<ContactReason>>)
    requires |us| > 0 && |ps| > 0 && |po| > 0 && |pr| > 0
    requires col == ConversationColumn(Cross(us, Cross(pc, Cross(ps, Cross(po, pr)))))
    ensures forall x :: x in col <==> x in pc
  {
    PositiveProduct(|po|, |pr|);
    PositiveProduct(|ps|, |po| * |pr|);
    InStretchRepeat(pc, |ps| * (|po| * |pr|), |us|, 1, 1);
    ConversationColumnShape(us, pc, ps, po, pr);
  }

  lemma {:induction false} SaleColumnMembers(col: seq<Option<Sale>>, us: seq<User>, pc: seq<Option<Conversation>>, ps: seq<Option<Sale>>, po: seq<Option<Objection>>, pr: seq<Option<ContactReason>>)
    requires |us| > 0 && |pc| > 0 && |po| > 0 && |pr| > 0
    requires col == SaleColumn(Cross(us, Cross(pc, Cross(ps, Cross(po, pr)))))
    ensures forall x :: x in col <==> x in ps
  {
    PositiveProduct(|po|, |pr|);
    InStretchRepeat(ps, |po| * |pr|, |pc|, |us|, 1);
    SaleColumnShape(us, pc, ps, po, pr);
  }

  lemma {:induction false} ObjectionColumnMembers(col: seq<Option<Objection>>, us: seq<User>, pc: seq<Option<Conversation>>, ps: seq<Option<Sale>>, po: seq<Option<Objection>>, pr: seq<Option<ContactReason>>)
    requires |us| > 0 && |pc| > 0 && |ps| > 0 && |pr| > 0
    requires col == ObjectionColumn(Cross(us, Cross(pc, Cross(ps, Cross(po, pr)))))
    ensures forall x :: x in col <==> x in po
  {
    InStretchRepeat(po, |pr|, |ps|, |pc|, |us|);
    ObjectionColumnShape(us, pc, ps, po, pr);
  }

  lemma {:induction false} ContactColumnMembers(col: seq<Option<ContactReason>>, us: seq<User>, pc: seq<Option<Conversation>>, ps: seq<Option<Sale>>, po: seq<Option<Objection>>, pr: seq<Option<ContactReason>>)
    requires |us| > 0 && |pc| > 0 && |ps| > 0 && |po| > 0
    requires col == ContactColumn(Cross(us, Cross(pc, Cross(ps, Cross(po, pr)))))
    ensures forall x :: x in col <==> x in pr
  {
    InRepeatRepeat(pr, |po|, |ps|, |pc|, |us|);
    ContactColumnShape(us, pc, ps, po, pr);
  }

  lemma UserRowPresent(t: Tables, k: UserId)
    requires exists u :: u in t.users && u.id == k
    ensures |Where(t.users, HasId, k)| > 0
  {
    var u :| u in t.users && u.id == k;
    assert u in Where(t.users, HasId, k);
  }

  /** With the user row present, each column holds exactly the rows its own join matched, or NULL when none did. */
  lemma {:induction false} ColumnMembers(t: Tables, k: UserId, fs: Filters)
    requires exists u :: u in t.users && u.id == k
    ensures forall x :: x in ConversationColumn(JoinRows(t, Some(k), fs)) <==> x in Padded(JoinedConversations(t, k, fs))
    ensures forall x :: x in SaleColumn(JoinRows(t, Some(k), fs)) <==> x in Padded(JoinedSales(t, k, fs))
    ensures forall x :: x in ObjectionColumn(JoinRows(t, Some(k), fs)) <==> x in Padded(JoinedObjections(t, k, fs))
    ensures forall x :: x in ContactColumn(JoinRows(t, Some(k), fs)) <==> x in Padded(JoinedContacts(t, k, fs))
  {
    UserRowPresent(t, k);
    var us, pc, ps, po, pr := Where(t.users, HasId, k), Padded(JoinedConversations(t, k, fs)), Padded(JoinedSales(t, k, fs)),
      Padded(JoinedObjections(t, k, fs)), Padded(JoinedContacts(t, k, fs));
    var rows := JoinRows(t, Some(k), fs);
    ConversationColumnMembers(ConversationColumn(rows), us, pc, ps, po, pr);
    SaleColumnMembers(SaleColumn(rows), us, pc, ps, po, pr);
    ObjectionColumnMembers(ObjectionColumn(rows), us, pc, ps, po, pr);
    ContactColumnMembers(ContactColumn(rows), us, pc, ps, po, pr);
  }

  /**
   * With the user row present, every DISTINCT count of the dashboard query
   * is the number of distinct ids among the rows its own join matches; the
   * other joins multiply rows but add no ids.
   */
  lemma {:induction false} CountsArePerTable(t: Tables, k: UserId, fs: Filters)
    requires exists u :: u in t.users && u.id == k
    ensures
      var m := MetricsQuery(t, Some(k), fs);
      && m.totalConversations == |IdSet(JoinedConversations(t, k, fs), ConversationId, AnyRow)|
      && m.completedConversations == |IdSet(JoinedConversations(t, k, fs), ConversationId, IsCompleted)|
      && m.totalSales == |IdSet(JoinedSales(t, k, fs), SaleId, AnyRow)|
      && m.totalObjections == |IdSet(JoinedObjections(t, k, fs), ObjectionId, AnyRow)|
      && m.handledObjections == |IdSet(JoinedObjections(t, k, fs), ObjectionId, WasHandled)|
      && m.totalContacts == |IdSet(JoinedContacts(t, k, fs), ContactId, AnyRow)|
  {
    var rows := JoinRows(t, Some(k), fs);
    ColumnMembers(t, k, fs);
    ColumnIdsSameMembers(ConversationColumn(rows), Padded(JoinedConversations(t, k, fs)), ConversationId, AnyRow);
    ColumnIdsSameMembers(ConversationColumn(rows), Padded(JoinedConversations(t, k, fs)), ConversationId, IsCompleted);
    ColumnIdsOfPadded(JoinedConversations(t, k, fs), ConversationId, AnyRow);
    ColumnIdsOfPadded(JoinedConversations(t, k, fs), ConversationId, IsCompleted);
    ColumnIdsSameMembers(SaleColumn(rows), Padded(JoinedSales(t, k, fs)), SaleId, AnyRow);
    ColumnIdsOfPadded(JoinedSales(t, k, fs), SaleId, AnyRow);
    ColumnIdsSameMembers(ObjectionColumn(rows), Padded(JoinedObjections(t, k, fs)), ObjectionId, AnyRow);
    ColumnIdsSameMembers(ObjectionColumn(rows), Padded(JoinedObjections(t, k, fs)), ObjectionId, WasHandled);
    ColumnIdsOfPadded(JoinedObjections(t, k, fs), ObjectionId, AnyRow);
    ColumnIdsOfPadded(JoinedObjections(t, k, fs), ObjectionId, WasHandled);
    ColumnIdsSameMembers(ContactColumn(rows), Padded(JoinedContacts(t, k, fs)), ContactId, AnyRow);
    ColumnIdsOfPadded(JoinedContacts(t, k, fs), ContactId, AnyRow);
  }

  // ------------------------------------------------------------- the bounds

  /** A `CASE WHEN` inside a `COUNT(DISTINCT ...)` can only drop ids. */
  lemma KeptIdsAtMost<T(!new)>(col: seq<Option<T>>, id: T -> int, keep: T -> bool)
    ensures |ColumnIds(col, id, keep)| <= |ColumnIds(col, id, AnyRow)|
  {
    SubsetSize(ColumnIds(col, id, keep), ColumnIds(col, id, AnyRow));
  }

  /** Completed conversations never outnumber conversations, nor handled objections objections. */
  lemma MetricsBounds(t: Tables, key: Option<UserId>, fs: Filters)
    ensures MetricsQuery(t, key, fs).completedConversations <= MetricsQuery(t, key, fs).totalConversations
    ensures MetricsQuery(t, key, fs).handledObjections <= MetricsQuery(t, key, fs).totalObjections
  {
    var rows := JoinRows(t, key, fs);
    KeptIdsAtMost(ConversationColumn(rows), ConversationId, IsCompleted);
    KeptIdsAtMost(ObjectionColumn(rows), ObjectionId, WasHandled);
  }

  /** With a primary key, the number of distinct ids is the number of rows. */
  lemma {:induction false} DistinctIdsCount<T(!new)>(xs: seq<T>, id: T -> int)
    requires DistinctBy(xs, id)
    ensures |IdSet(xs, id, AnyRow)| == |xs|
  {
    if xs != [] {
      var rest := xs[1..];
      DistinctTail(xs, id);
      DistinctIdsCount(rest, id);
      assert IdSet(xs, id, AnyRow) == {id(xs[0])} + IdSet(rest, id, AnyRow) by {
        assert xs == [xs[0]] + rest;
      }
    }
  }

  /**
   * Given the tables' primary keys, the dashboard's DISTINCT counts are the
   * numbers of rows each join matches.
   */
  lemma CountsAreRowCounts(t: Tables, k: UserId, fs: Filters)
    requires exists u :: u in t.users && u.id == k
    requires DistinctBy(t.conversations, ConversationId) && DistinctBy(t.sales, SaleId)
    requires DistinctBy(t.objections, ObjectionId) && DistinctBy(t.contactReasons, ContactId)
    ensures
      var m := MetricsQuery(t, Some(k), fs);
      && m.totalConversations == |JoinedConversations(t, k, fs)|
      && m.totalSales == |JoinedSales(t, k, fs)|
      && m.totalObjections == |JoinedObjections(t, k, fs)|
      && m.totalContacts == |JoinedContacts(t, k, fs)|
  {
    CountsArePerTable(t, k, fs);
    WhereKeepsDistinct(t.conversations, ConversationJoins, (k, fs.conversations), ConversationId);
    DistinctIdsCount(JoinedConversations(t, k, fs), ConversationId);
    WhereKeepsDistinct(t.sales, SaleJoins, (k, fs.sales), SaleId);
    DistinctIdsCount(JoinedSales(t, k, fs), SaleId);
    WhereKeepsDistinct(t.objections, ObjectionJoins, (k, fs.objections), ObjectionId);
    DistinctIdsCount(JoinedObjections(t, k, fs), ObjectionId);
    WhereKeepsDistinct(t.contactReasons, ContactJoins, (k, fs.contacts), ContactId);
    DistinctIdsCount(JoinedContacts(t, k, fs), ContactId);
  }

  /** Without a user row there are no joined rows: every count and the revenue are 0. */
  lemma NoUserNoMetrics(t: Tables, key: Option<UserId>, fs: Filters)
    requires key.Some? ==> forall u :: u in t.users ==> u.id != key.value
    ensures MetricsQuery(t, key, fs) == NoMetrics
  {
    if key.Some? {
      WhereNone(t.users, HasId, key.value);
    }
  }

  // ------------------------------------------------------------ the revenue

  lemma {:induction false} ColumnRevenueAppend(a: seq<Option<Sale>>, b: seq<Option<Sale>>)
    ensures ColumnRevenue(a + b) == ColumnRevenue(a) + ColumnRevenue(b)
  {
    if a == [] {
      assert a + b == b;
    } else {
      assert (a + b)[1..] == a[1..] + b;
      ColumnRevenueAppend(a[1..], b);
    }
  }

  lemma {:induction false} ColumnRevenueCopies(x: Option<Sale>, k: nat)
    ensures ColumnRevenue(Copies(x, k)) == k * RevenueTerm(x)
  {
    if k > 0 {
      ColumnRevenueAppend([x], Copies(x, k - 1));
      ColumnRevenueCopies(x, k - 1);
      assert ColumnRevenue([x]) == RevenueTerm(x);
    }
  }

  lemma {:induction false} ColumnRevenueStretch(xs: seq<Option<Sale>>, k: nat)
    ensures ColumnRevenue(Stretch(xs, k)) == k * ColumnRevenue(xs)
  {
    if xs != [] {
      var copies, rest := Copies(xs[0], k), Stretch(xs[1..], k);
      assert Stretch(xs, k) == copies + rest;
      ColumnRevenueAppend(copies, rest);
      ColumnRevenueCopies(xs[0], k);
      ColumnRevenueStretch(xs[1..], k);
      Distribute(k, RevenueTerm(xs[0]), ColumnRevenue(xs[1..]));
    }
  }

  lemma Distribute(k: int, a: int, b: int)
    ensures k * (a + b) == k * a + k * b
  {
  }

  lemma {:induction false} ColumnRevenueRepeat(xs: seq<Option<Sale>>, k: nat)
    ensures ColumnRevenue(Repeat(xs, k)) == k * ColumnRevenue(xs)
  {
    if k > 0 {
      ColumnRevenueAppend(xs, Repeat(xs, k - 1));
      ColumnRevenueRepeat(xs, k - 1);
    }
  }

  lemma {:induction false} ColumnRevenueOfSomes(col: seq<Option<Sale>>, ss: seq<Sale>)
    requires |col| == |ss|
    requires forall i :: 0 <= i < |ss| ==> col[i] == Some(ss[i])
    ensures ColumnRevenue(col) == ConfirmedRevenue(ss)
  {
    if ss != [] {
      ColumnRevenueOfSomes(col[1..], ss[1..]);
    }
  }

  /** A LEFT JOIN's padded column sums to the matched sales' revenue: the NULL row adds 0. */
  lemma ColumnRevenuePadded(ss: seq<Sale>)
    ensures ColumnRevenue(Padded(ss)) == ConfirmedRevenue(ss)
  {
    if ss != [] {
      ColumnRevenueOfSomes(Padded(ss), ss);
    }
  }

  lemma SaleRevenueOfCross(col: seq<Option<Sale>>, us: seq<User>, pc: seq<Option<Conversation>>, ps: seq<Option<Sale>>, po: seq<Option<Objection>>, pr: seq<Option<ContactReason>>)
    requires col == SaleColumn(Cross(us, Cross(pc, Cross(ps, Cross(po, pr)))))
    ensures ColumnRevenue(col) == |us| * (|pc| * ((|po| * |pr|) * ColumnRevenue(ps)))
  {
    var a := |po| * |pr|;
    SaleColumnShape(us, pc, ps, po, pr);
    ColumnRevenueRepeat(Repeat(Stretch(ps, a), |pc|), |us|);
    ColumnRevenueRepeat(Stretch(ps, a), |pc|);
    ColumnRevenueStretch(ps, a);
  }

  /** How many rows a LEFT JOIN contributes per left row: its matches, or the one NULL row. */
  function FanOut<T>(xs: seq<T>): (n: nat)
    ensures n >= 1
    ensures n == 1 <==> |xs| <= 1
  {
    if xs == [] then 1 else |xs|
  }

  /**
   * What `total_revenue` actually is: the user's confirmed revenue in the
   * window, once per user row and once per matched conversation, objection
   * and contact reason (or NULL row) it is joined with.
   */
  lemma RevenueFanOut(t: Tables, k: UserId, fs: Filters)
    ensures MetricsQuery(t, Some(k), fs).totalRevenue
      == |Where(t.users, HasId, k)| * (FanOut(JoinedConversations(t, k, fs))
         * ((FanOut(JoinedObjections(t, k, fs)) * FanOut(JoinedContacts(t, k, fs))) * ConfirmedRevenue(JoinedSales(t, k, fs))))
  {
    var rows := JoinRows(t, Some(k), fs);
    var us, pc, ps, po, pr := Where(t.users, HasId, k), Padded(JoinedConversations(t, k, fs)), Padded(JoinedSales(t, k, fs)),
      Padded(JoinedObjections(t, k, fs)), Padded(JoinedContacts(t, k, fs));
    SaleRevenueOfCross(SaleColumn(rows), us, pc, ps, po, pr);
    ColumnRevenuePadded(JoinedSales(t, k, fs));
  }

  /** A primary key admits at most one row per id, and exactly one when the id is present. */
  lemma {:induction false} OneRowPerKey(us: seq<User>, k: UserId)
    requires DistinctBy(us, UserKey)
    requires exists u :: u in us && u.id == k
    ensures |Where(us, HasId, k)| == 1
  {
    var rest := us[1..];
    assert us == [us[0]] + rest;
    WhereCons(us[0], rest, HasId, k);
    DistinctTail(us, UserKey);
    if us[0].id == k {
      WhereNone(rest, HasId, k);
    } else {
      OneRowPerKey(rest, k);
    }
  }

  /**
   * The confirmed-sales total is what the dashboard reports when the other
   * joins do not fan out: at most one conversation, objection and contact
   * reason in the window.
   */
  lemma RevenueWithoutFanOut(t: Tables, k: UserId, fs: Filters)
    requires DistinctBy(t.users, UserKey)
    requires exists u :: u in t.users && u.id == k
    requires |JoinedConversations(t, k, fs)| <= 1 && |JoinedObjections(t, k, fs)| <= 1 && |JoinedContacts(t, k, fs)| <= 1
    ensures MetricsQuery(t, Some(k), fs).totalRevenue == ConfirmedRevenue(JoinedSales(t, k, fs))
  {
    RevenueFanOut(t, k, fs);
    OneRowPerKey(t.users, k);
    UnitFactors(|Where(t.users, HasId, k)|, FanOut(JoinedConversations(t, k, fs)), FanOut(JoinedObjections(t, k, fs)),
      FanOut(JoinedContacts(t, k, fs)), ConfirmedRevenue(JoinedSales(t, k, fs)));
  }

  lemma UnitFactors(a: int, b: int, c: int, d: int, r: int)
    requires a == 1 && b == 1 && c == 1 && d == 1
    ensures a * (b * ((c * d) * r)) == r
  {
  }

  // ------------------------------------------------------- tenant isolation

  /**
   * Every dashboard figure for user `k` is computed from `k`'s own rows: the
   * query gives the same answer on the whole store and on `k`'s part of it.
   */
  lemma MetricsIsolation(t: Tables, k: UserId, fs: Filters)
    ensures MetricsQuery(t, Some(k), fs) == MetricsQuery(OwnedBy(t, k), Some(k), fs)
  {
    WhereAbsorb(t.users, HasId, k, HasId, k);
    WhereAbsorb(t.conversations, ConversationJoins, (k, fs.conversations), OwnsConversation, k);
    WhereAbsorb(t.sales, SaleJoins, (k, fs.sales), OwnsSale, k);
    WhereAbsorb(t.objections, ObjectionJoins, (k, fs.objections), OwnsObjection, k);
    WhereAbsorb(t.contactReasons, ContactJoins, (k, fs.contacts), OwnsContact, k);
    assert JoinRows(t, Some(k), fs) == JoinRows(OwnedBy(t, k), Some(k), fs);
  }

  // ------------------------------------------ the parameters as they are bound

  /**
   * Positional binding of `?` placeholders: slot `i` takes the `i`-th
   * parameter, and a slot with no parameter is left NULL.
   */
  function BindSlots(params: seq<Option<int>>, n: nat): (slots: seq<Option<int>>)
    ensures |slots| == n
    ensures forall i :: 0 <= i < n ==> slots[i] == (if i < |params| then params[i] else None)
  {
    seq(n, i requires 0 <= i < n => if i < |params| then params[i] else None)
  }

  /**
   * `getDashboardMetrics` as its parameters are actually bound. With a window,
   * the statement has nine placeholders, two per joined table and the final
   * `u.id = ?`, but only `[userId, startDate, endDate]` are passed: the user
   * id and the start date land in the conversation window, the end date in
   * the sales window, and the user key is left NULL. (The window slots are
   * read here as day numbers; they play no part, since no user row
   * matches a NULL key.)
   */
  function DashboardMetricsAsWritten(t: Tables, userId: UserId, startDate: Option<int>, endDate: Option<int>): Metrics
  {
    if startDate.Some? && endDate.Some? then
      var slots := BindSlots([Some(userId), startDate, endDate], 9);
      MetricsQuery(t, slots[8], Filters(Between(slots[0], slots[1]), Between(slots[2], slots[3]),
        Between(slots[4], slots[5]), Between(slots[6], slots[7])))
    else
      MetricsQuery(t, BindSlots([Some(userId)], 1)[0], Uniform(AllDates))
  }

  /** As bound, any windowed request reports all zeros, whatever the store holds. */
  lemma WindowedAsWrittenIsZero(t: Tables, userId: UserId, startDate: Option<int>, endDate: Option<int>)
    requires startDate.Some? && endDate.Some?
    ensures DashboardMetricsAsWritten(t, userId, startDate, endDate) == NoMetrics
  {
    var slots := BindSlots([Some(userId), startDate, endDate], 9);
    assert slots[8] == None;
  }

  /** Without a window the single placeholder is bound correctly. */
  lemma UnwindowedAsWrittenAgrees(t: Tables, userId: UserId, startDate: Option<int>, endDate: Option<int>)
    requires startDate.None? || endDate.None?
    ensures DashboardMetricsAsWritten(t, userId, startDate, endDate) == DashboardMetrics(t, userId, startDate, endDate)
  {
    assert BindSlots([Some(userId)], 1)[0] == Some(userId);
  }

  // --------------------------------------------- independent per-table figures

  /** Only confirmed sales contribute: the confirmed revenue is the amount total of the confirmed sales. */
  lemma {:induction false} ConfirmedRevenueIsConfirmedTotal(ss: seq<Sale>)
    ensures ConfirmedRevenue(ss) == AmountTotal(Where(ss, HasStatus, Confirmed))
  {
    if ss != [] {
      ConfirmedRevenueIsConfirmedTotal(ss[1..]);
    }
  }

  /**
   * The dashboard figures as independent aggregates, one table at a time:
   * each count over its own table, and the revenue over the user's
   * confirmed sales in the window, each sale counted once. A user id with
   * no user row reports all zeros, as the joined query does.
   */
  function IndependentMetrics(t: Tables, userId: UserId, startDate: Option<int>, endDate: Option<int>): (m: Metrics)
    ensures m.completedConversations <= m.totalConversations
    ensures m.handledObjections <= m.totalObjections
    ensures Where(t.users, HasId, userId) == [] ==> m == NoMetrics
  {
    var fs := Uniform(WindowFilter(startDate, endDate));
    if Where(t.users, HasId, userId) == [] then NoMetrics
    else
      var cs, ss, os, rs := JoinedConversations(t, userId, fs), JoinedSales(t, userId, fs),
        JoinedObjections(t, userId, fs), JoinedContacts(t, userId, fs);
      SubsetSize(IdSet(cs, ConversationId, IsCompleted), IdSet(cs, ConversationId, AnyRow));
      SubsetSize(IdSet(os, ObjectionId, WasHandled), IdSet(os, ObjectionId, AnyRow));
      Metrics(
        |IdSet(cs, ConversationId, AnyRow)|,
        |IdSet(cs, ConversationId, IsCompleted)|,
        |IdSet(ss, SaleId, AnyRow)|,
        ConfirmedRevenue(ss),
        |IdSet(os, ObjectionId, AnyRow)|,
        |IdSet(os, ObjectionId, WasHandled)|,
        |IdSet(rs, ContactId, AnyRow)|)
  }

  /**
   * The joined query and the independent aggregates report the same counts;
   * they differ only in the revenue, and not even there when no join fans out.
   */
  lemma IndependentAgreesOnCounts(t: Tables, userId: UserId, startDate: Option<int>, endDate: Option<int>)
    ensures DashboardMetrics(t, userId, startDate, endDate).(totalRevenue := 0)
      == IndependentMetrics(t, userId, startDate, endDate).(totalRevenue := 0)
  {
    var fs := Uniform(WindowFilter(startDate, endDate));
    if Where(t.users, HasId, userId) == [] {
      NoUserNoMetrics(t, Some(userId), fs);
    } else {
      var u := Where(t.users, HasId, userId)[0];
      assert u in Where(t.users, HasId, userId);
      CountsArePerTable(t, userId, fs);
    }
  }

  lemma IndependentAgreesWithoutFanOut(t: Tables, userId: UserId, startDate: Option<int>, endDate: Option<int>)
    requires DistinctBy(t.users, UserKey)
    requires
      var fs := Uniform(WindowFilter(startDate, endDate));
      |JoinedConversations(t, userId, fs)| <= 1 && |JoinedObjections(t, userId, fs)| <= 1 && |JoinedContacts(t, userId, fs)| <= 1
    ensures DashboardMetrics(t, userId, startDate, endDate) == IndependentMetrics(t, userId, startDate, endDate)
  {
    var fs := Uniform(WindowFilter(startDate, endDate));
    IndependentAgreesOnCounts(t, userId, startDate, endDate);
    if Where(t.users, HasId, userId) == [] {
      NoUserNoMetrics(t, Some(userId), fs);
    } else {
      var u := Where(t.users, HasId, userId)[0];
      assert u in Where(t.users, HasId, userId);
      RevenueWithoutFanOut(t, userId, fs);
    }
  }

  /** The independent figures for user `k` also depend on `k`'s rows alone. */
  lemma IndependentIsolation(t: Tables, k: UserId, startDate: Option<int>, endDate: Option<int>)
    ensures IndependentMetrics(t, k, startDate, endDate) == IndependentMetrics(OwnedBy(t, k), k, startDate, endDate)
  {
    var fs := Uniform(WindowFilter(startDate, endDate));
    WhereAbsorb(t.users, HasId, k, HasId, k);
    WhereAbsorb(t.conversations, ConversationJoins, (k, fs.conversations), OwnsConversation, k);
    WhereAbsorb(t.sales, SaleJoins, (k, fs.sales), OwnsSale, k);
    WhereAbsorb(t.objections, ObjectionJoins, (k, fs.objections), OwnsObjection, k);
    WhereAbsorb(t.contactReasons, ContactJoins, (k, fs.contacts), OwnsContact, k);
  }

  // ------------------------------------------------------------- scenarios

  const ScenarioDay := 19_800
  const ScenarioTime := ScenarioDay * SecondsPerDay + 3_600
  const ScenarioUser := User(1, "ana@example.com", "hash", "Ana", None, "agent-1", "{}", true, None)

  /** Two confirmed sales ($100, $250) and a pending one ($500), all inside the window. */
  const ScenarioSales := [
    Sale(1, 1, 1, 10_000, Confirmed, ScenarioTime),
    Sale(2, 1, 1, 25_000, Confirmed, ScenarioTime),
    Sale(3, 1, 2, 50_000, Pending, ScenarioTime)]

  const Scenario := Tables([ScenarioUser], [], [], ScenarioSales, [], [], [])

  lemma ScenarioConfirmedRevenue()
    ensures ConfirmedRevenue(ScenarioSales) == 35_000
  {
    var ss := ScenarioSales;
    assert ss[1..][1..][1..] == [];
    assert ConfirmedRevenue(ss[1..][1..]) == 0;
    assert ConfirmedRevenue(ss[1..]) == 25_000;
  }

  lemma ScenarioJoins(t: Tables)
    requires t.users == [ScenarioUser] && t.sales == ScenarioSales
    ensures JoinedSales(t, 1, Uniform(WindowFilter(Some(ScenarioDay), Some(ScenarioDay)))) == ScenarioSales
    ensures Where(t.users, HasId, 1) == [ScenarioUser]
  {
    ScenarioSalesJoin(t.sales, WindowFilter(Some(ScenarioDay), Some(ScenarioDay)));
    ScenarioUserJoin(t.users);
  }

  lemma ScenarioSalesJoin(ss: seq<Sale>, f: DateFilter)
    requires ss == ScenarioSales && f == WindowFilter(Some(ScenarioDay), Some(ScenarioDay))
    ensures Where(ss, SaleJoins, (1, f)) == ss
  {
    ScenarioWindow(f);
    forall s | s in ss ensures SaleJoins(s, (1, f)) {
      assert s.userId == 1 && s.saleDate == ScenarioTime;
    }
    WhereAll(ss, SaleJoins, (1, f));
  }

  lemma ScenarioUserJoin(us: seq<User>)
    requires us == [ScenarioUser]
    ensures Where(us, HasId, 1) == us
  {
    WhereAll(us, HasId, 1);
  }

  /** The scenario's rows all fall on the one day of the window. */
  lemma ScenarioWindow(f: DateFilter)
    requires f == WindowFilter(Some(ScenarioDay), Some(ScenarioDay))
    ensures Day(ScenarioTime) == ScenarioDay && Admits(f, Day(ScenarioTime))
  {
  }

  /** Only confirmed sales add revenue, while every sale is counted. */
  lemma RevenueScenario()
    ensures IndependentMetrics(Scenario, 1, Some(ScenarioDay), Some(ScenarioDay)).totalRevenue == 35_000
    ensures IndependentMetrics(Scenario, 1, Some(ScenarioDay), Some(ScenarioDay)).totalSales == 3
    ensures DashboardMetrics(Scenario, 1, Some(ScenarioDay), Some(ScenarioDay)).totalRevenue == 35_000
  {
    ScenarioJoins(Scenario);
    ScenarioConfirmedRevenue();
    DistinctIdsCount(ScenarioSales, SaleId);
    IndependentAgreesWithoutFanOut(Scenario, 1, Some(ScenarioDay), Some(ScenarioDay));
  }

  /** The same store with two conversations in the window: the joined query counts each sale twice. */
  const FanOutScenario := Scenario.(conversations := [
    Conversation(1, 1, Completed, ScenarioTime),
    Conversation(2, 1, Active, ScenarioTime)])

  lemma FanOutJoins()
    ensures JoinedConversations(FanOutScenario, 1, Uniform(WindowFilter(Some(ScenarioDay), Some(ScenarioDay)))) == FanOutScenario.conversations
  {
    var f := WindowFilter(Some(ScenarioDay), Some(ScenarioDay));
    ScenarioWindow(f);
    forall c | c in FanOutScenario.conversations ensures ConversationJoins(c, (1, f)) {
      assert c.userId == 1 && c.startTime == ScenarioTime;
    }
    WhereAll(FanOutScenario.conversations, ConversationJoins, (1, f));
  }

  lemma FanOutRevenue()
    ensures MetricsQuery(FanOutScenario, Some(1), Uniform(WindowFilter(Some(ScenarioDay), Some(ScenarioDay)))).totalRevenue == 70_000
  {
    var t, fs := FanOutScenario, Uniform(WindowFilter(Some(ScenarioDay), Some(ScenarioDay)));
    ScenarioJoins(t);
    FanOutJoins();
    ScenarioConfirmedRevenue();
    RevenueFanOut(t, 1, fs);
    assert t.objections == [] && t.contactReasons == [];
    FanOutProduct(|Where(t.users, HasId, 1)|, FanOut(JoinedConversations(t, 1, fs)), FanOut(JoinedObjections(t, 1, fs)),
      FanOut(JoinedContacts(t, 1, fs)), ConfirmedRevenue(JoinedSales(t, 1, fs)));
  }

  lemma FanOutProduct(users: int, conversations: int, objections: int, contacts: int, revenue: int)
    requires users == 1 && conversations == 2 && objections == 1 && contacts == 1 && revenue == 35_000
    ensures users * (conversations * ((objections * contacts) * revenue)) == 70_000
  {
  }

  lemma RevenueDoubled()
    ensures DashboardMetrics(FanOutScenario, 1, Some(ScenarioDay), Some(ScenarioDay)).totalRevenue == 70_000
    ensures IndependentMetrics(FanOutScenario, 1, Some(ScenarioDay), Some(ScenarioDay)).totalRevenue == 35_000
  {
    FanOutRevenue();
    ScenarioJoins(FanOutScenario);
    ScenarioConfirmedRevenue();
  }

  /** A windowed request for a user with conversations in the window: counted by the query's text, not as bound. */
  lemma WindowedBindingLosesRows()
    ensures DashboardMetrics(FanOutScenario, 1, Some(ScenarioDay), Some(ScenarioDay)).totalConversations == 2
    ensures DashboardMetricsAsWritten(FanOutScenario, 1, Some(ScenarioDay), Some(ScenarioDay)).totalConversations == 0
  {
    var fs := Uniform(WindowFilter(Some(ScenarioDay), Some(ScenarioDay)));
    FanOutJoins();
    assert ScenarioUser in FanOutScenario.users;
    CountsAreRowCounts(FanOutScenario, 1, fs);
    WindowedAsWrittenIsZero(FanOutScenario, 1, Some(ScenarioDay), Some(ScenarioDay));
  }
}
