/**
 * The ranking queries of backend/db.js: `getTopProducts`, `getTopObjections`
 * and `getTopContactReasons`. Each selects one user's rows, groups them,
 * counts (and sums) per group, orders the groups by count descending and
 * keeps the first `limit` of them.
 */
module Rankings {
  import opened Optional
  import opened Seqs
  import opened Store

  // ------------------------------------------------------------ top products

  /** One row of `getTopProducts`. `totalRevenue` is NULL for a product without confirmed sales. */
  datatype ProductRow = ProductRow(productName: string, salesCount: nat, totalRevenue: Option<Cents>)

  /** The ON clause `p.id = s.product_id AND s.status = 'confirmed'`. */
  predicate SoldAs(s: Sale, productId: int) { s.productId == productId && s.status == Confirmed }

  /**
   * The group of one product: `COUNT(s.id)` counts its matched sales (the
   * NULL row of an unmatched LEFT JOIN has no id), and `SUM(s.total_amount)`
   * is NULL when nothing matched.
   */
  function ProductGroup(p: Product, sales: seq<Sale>): (r: ProductRow)
    ensures r.productName == p.name
    ensures r.salesCount == |Where(sales, SoldAs, p.id)| <= |sales|
    ensures r.totalRevenue.None? <==> r.salesCount == 0
    ensures r.totalRevenue.Some? ==> r.totalRevenue.value == AmountTotal(Where(sales, SoldAs, p.id))
  {
    var matched := Where(sales, SoldAs, p.id);
    ProductRow(p.name, |matched|, if matched == [] then None else Some(AmountTotal(matched)))
  }

  /** `GROUP BY p.id, p.name`: one group per product row (product ids being the primary key). */
  function ProductGroups(ps: seq<Product>, sales: seq<Sale>): (rows: seq<ProductRow>)
    ensures |rows| == |ps|
    ensures forall i :: 0 <= i < |ps| ==> rows[i] == ProductGroup(ps[i], sales)
  {
    seq(|ps|, i requires 0 <= i < |ps| => ProductGroup(ps[i], sales))
  }

  /** `ORDER BY sales_count DESC, total_revenue DESC`. */
  function ProductRank(r: ProductRow): Rank { Rank(r.salesCount, r.totalRevenue) }

  /** The products of a user, as `WHERE p.user_id = ?` selects them. */
  function OwnProducts(t: Tables, userId: UserId): seq<Product>
  {
    Where(t.products, OwnsProduct, userId)
  }

  /** `getTopProducts(userId, limit)`. */
  function TopProducts(t: Tables, userId: UserId, limit: int): (r: seq<ProductRow>)
    ensures Descending(r, ProductRank)
    ensures multiset(r) <= multiset(ProductGroups(OwnProducts(t, userId), t.sales))
    ensures limit >= 0 ==> |r| <= limit
    ensures |r| == if 0 <= limit < |OwnProducts(t, userId)| then limit else |OwnProducts(t, userId)|
  {
    Top(ProductGroups(OwnProducts(t, userId), t.sales), ProductRank, limit)
  }

  /** Without a cutting limit every product of the user is listed, with or without sales. */
  lemma TopProductsListsEveryProduct(t: Tables, k: UserId, limit: int, p: Product)
    requires limit < 0 || limit >= |OwnProducts(t, k)|
    requires p in t.products && p.userId == k
    ensures ProductGroup(p, t.sales) in TopProducts(t, k, limit)
  {
    var ps := OwnProducts(t, k);
    assert p in ps;
    var i :| 0 <= i < |ps| && ps[i] == p;
    var groups := ProductGroups(ps, t.sales);
    assert groups[i] == ProductGroup(p, t.sales);
    assert ProductGroup(p, t.sales) in multiset(groups);
  }

  /** Every group the limit cuts off ranks at or below every group it keeps. */
  lemma TopProductsCutoff(t: Tables, k: UserId, limit: int)
    ensures var groups := ProductGroups(OwnProducts(t, k), t.sales);
      forall x, y :: x in multiset(groups) - multiset(TopProducts(t, k, limit)) && y in TopProducts(t, k, limit)
        ==> RankLe(ProductRank(x), ProductRank(y))
  {
    TopDominates(ProductGroups(OwnProducts(t, k), t.sales), ProductRank, limit);
  }

  /**
   * The sales are joined on the product id alone, with no `s.user_id`
   * condition: the ranking depends on the user's own rows only as long as
   * every sale of the user's products is the user's own.
   */
  lemma TopProductsIsolation(t: Tables, k: UserId, limit: int)
    requires forall s, p :: s in t.sales && p in t.products && p.userId == k && s.productId == p.id ==> s.userId == k
    ensures TopProducts(t, k, limit) == TopProducts(OwnedBy(t, k), k, limit)
  {
    var o := OwnedBy(t, k);
    var ps := OwnProducts(t, k);
    WhereAbsorb(t.products, OwnsProduct, k, OwnsProduct, k);
    assert OwnProducts(o, k) == ps;
    forall i | 0 <= i < |ps| ensures ProductGroup(ps[i], o.sales) == ProductGroup(ps[i], t.sales) {
      assert ps[i] in t.products;
      WhereAbsorb(t.sales, SoldAs, ps[i].id, OwnsSale, k);
    }
    assert ProductGroups(ps, o.sales) == ProductGroups(ps, t.sales);
  }

  // ---------------------------------------------------------- top objections

  /** One row of `getTopObjections`; `successRate` is in hundredths of a percent. */
  datatype ObjectionRow = ObjectionRow(objectionType: string, count: nat, handledCount: nat, successRate: int)

  function ObjectionType(o: Objection): string { o.objectionType }
  predicate OfType(o: Objection, ty: string) { o.objectionType == ty }
  predicate HandledOfType(o: Objection, ty: string) { o.objectionType == ty && o.wasHandled }

  /**
   * `ROUND(handled * 100.0 / count, 2)` in hundredths: the nearest whole
   * number of hundredths to `10000 * handled / count`, a half rounded up
   * (away from zero, the quotient being non-negative).
   */
  function SuccessRate(handled: nat, count: nat): (rate: int)
    requires 0 < count && handled <= count
    ensures 0 <= rate <= 10_000
    ensures 2 * count * rate - count <= 20_000 * handled < 2 * count * rate + count
  {
    var rate := (20_000 * handled + count) / (2 * count);
    RoundedQuotient(20_000 * handled + count, 2 * count, rate);
    assert rate <= 10_000 by {
      if rate > 10_000 {
        Grows(2 * count, 10_001, rate);
      }
    }
    rate
  }

  lemma RoundedQuotient(a: nat, b: int, q: int)
    requires b > 0 && q == a / b
    ensures q >= 0 && b * q <= a < b * q + b
  {
  }

  lemma Grows(b: nat, m: int, n: int)
    requires m <= n
    ensures b * m <= b * n
  {
  }

  /** The selected objections of a user. */
  function OwnObjections(t: Tables, userId: UserId): seq<Objection>
  {
    Where(t.objections, OwnsObjection, userId)
  }

  /** Some objection has type `ty`: the type forms a group. */
  predicate HasType(os: seq<Objection>, ty: string)
  {
    exists o :: o in os && o.objectionType == ty
  }

  /** The group of one objection type: `COUNT(*)`, the handled count and the rounded rate. */
  function ObjectionGroup(os: seq<Objection>, ty: string): (r: ObjectionRow)
    requires HasType(os, ty)
    ensures r.objectionType == ty
    ensures r.count == |Where(os, OfType, ty)| >= 1
    ensures r.handledCount == |Where(os, HandledOfType, ty)| <= r.count
    ensures r.successRate == SuccessRate(r.handledCount, r.count)
  {
    var o :| o in os && o.objectionType == ty;
    assert o in Where(os, OfType, ty);
    WhereMonotone(os, HandledOfType, ty, OfType, ty);
    var count := |Where(os, OfType, ty)|;
    var handled := |Where(os, HandledOfType, ty)|;
    ObjectionRow(ty, count, handled, SuccessRate(handled, count))
  }

  function ObjectionRowType(r: ObjectionRow): string { r.objectionType }

  /** A row that reports a count, a handled count and its rate as the query defines them. */
  predicate WellFormedObjectionRow(r: ObjectionRow)
  {
    && 1 <= r.count
    && r.handledCount <= r.count
    && 0 <= r.successRate <= 10_000
    && 2 * r.count * r.successRate - r.count <= 20_000 * r.handledCount < 2 * r.count * r.successRate + r.count
  }

  function ObjectionGroups(os: seq<Objection>, tys: seq<string>): (rows: seq<ObjectionRow>)
    requires forall i :: 0 <= i < |tys| ==> HasType(os, tys[i])
    ensures |rows| == |tys|
    ensures forall i :: 0 <= i < |tys| ==> rows[i] == ObjectionGroup(os, tys[i])
    ensures forall i :: 0 <= i < |tys| ==> rows[i].objectionType == tys[i] && WellFormedObjectionRow(rows[i])
  {
    seq(|tys|, i requires 0 <= i < |tys| => ObjectionGroup(os, tys[i]))
  }

  /** `GROUP BY objection_type` over the user's objections: one well-formed row per distinct type. */
  function ObjectionTable(t: Tables, userId: UserId): (rows: seq<ObjectionRow>)
    ensures DistinctBy(rows, ObjectionRowType)
    ensures forall x :: x in rows ==> WellFormedObjectionRow(x)
  {
    var os := OwnObjections(t, userId);
    TypesPresent(os);
    ObjectionGroups(os, DistinctKeys(os, ObjectionType))
  }

  /** Every grouped type is the type of some row. */
  lemma TypesPresent(os: seq<Objection>)
    ensures forall i :: 0 <= i < |DistinctKeys(os, ObjectionType)| ==> HasType(os, DistinctKeys(os, ObjectionType)[i])
  {
    var tys := DistinctKeys(os, ObjectionType);
    forall i | 0 <= i < |tys| ensures HasType(os, tys[i]) {
      assert tys[i] in tys;
    }
  }

  function ObjectionRank(r: ObjectionRow): Rank { Rank(r.count, None) }

  /** `getTopObjections(userId, limit)`. */
  function TopObjections(t: Tables, userId: UserId, limit: int): (r: seq<ObjectionRow>)
    ensures Descending(r, ObjectionRank)
    ensures multiset(r) <= multiset(ObjectionTable(t, userId))
    ensures limit >= 0 ==> |r| <= limit
    ensures limit >= 0 ==> |r| == if limit < |ObjectionTable(t, userId)| then limit else |ObjectionTable(t, userId)|
    ensures limit < 0 ==> multiset(r) == multiset(ObjectionTable(t, userId))
    ensures forall i :: 0 <= i < |r| ==> WellFormedObjectionRow(r[i])
    ensures DistinctBy(r, ObjectionRowType)
  {
    var table := ObjectionTable(t, userId);
    var r := Top(table, ObjectionRank, limit);
    DistinctBySubMultiset(table, r, ObjectionRowType);
    forall i | 0 <= i < |r| ensures WellFormedObjectionRow(r[i]) {
      assert r[i] in multiset(table);
    }
    r
  }
  /** Every group the limit cuts off ranks at or below every group it keeps. */
  lemma TopObjectionsCutoff(t: Tables, k: UserId, limit: int)
    ensures var top := TopObjections(t, k, limit);
      forall x, y :: x in multiset(ObjectionTable(t, k)) - multiset(top) && y in top ==> RankLe(ObjectionRank(x), ObjectionRank(y))
  {
    TopDominates(ObjectionTable(t, k), ObjectionRank, limit);
  }


  /** Some row of the ranking reports type `ty`. */
  predicate ListsType(rows: seq<ObjectionRow>, ty: string)
  {
    exists r :: r in rows && r.objectionType == ty
  }

  lemma GroupTypes(os: seq<Objection>, tys: seq<string>, rows: seq<ObjectionRow>)
    requires forall i :: 0 <= i < |tys| ==> HasType(os, tys[i])
    requires forall o :: o in os ==> ObjectionType(o) in tys
    requires rows == ObjectionGroups(os, tys)
    ensures forall ty :: ListsType(rows, ty) <==> HasType(os, ty)
  {
    forall ty | HasType(os, ty) ensures ListsType(rows, ty) {
      var o :| o in os && o.objectionType == ty;
      assert ObjectionType(o) in tys;
      var i :| 0 <= i < |tys| && tys[i] == ty;
      assert rows[i] in rows;
    }
    forall ty | ListsType(rows, ty) ensures HasType(os, ty) {
      var x :| x in rows && x.objectionType == ty;
      var i :| 0 <= i < |rows| && rows[i] == x;
    }
  }

  /** The grouped types are exactly the types of the user's objections. */
  lemma TableTypes(t: Tables, k: UserId)
    ensures forall ty :: ListsType(ObjectionTable(t, k), ty) <==> HasType(OwnObjections(t, k), ty)
  {
    var os := OwnObjections(t, k);
    TypesPresent(os);
    GroupTypes(os, DistinctKeys(os, ObjectionType), ObjectionTable(t, k));
  }

  /** The types listed are exactly the types of the user's objections, when the limit cuts nothing. */
  lemma TopObjectionsTypes(t: Tables, k: UserId, limit: int)
    requires limit < 0 || limit >= |ObjectionTable(t, k)|
    ensures forall ty :: ListsType(TopObjections(t, k, limit), ty) <==> HasType(OwnObjections(t, k), ty)
  {
    var table := ObjectionTable(t, k);
    var r := TopObjections(t, k, limit);
    TableTypes(t, k);
    assert multiset(r) == multiset(table);
    assert forall x :: x in r <==> x in table by {
      forall x ensures x in r <==> x in table {
        assert x in r <==> x in multiset(r);
        assert x in table <==> x in multiset(table);
      }
    }
  }

  function SumObjectionCounts(rows: seq<ObjectionRow>): nat
  {
    if rows == [] then 0 else rows[0].count + SumObjectionCounts(rows[1..])
  }

  lemma {:induction false} ObjectionCountsAreSizes(os: seq<Objection>, tys: seq<string>)
    requires forall i :: 0 <= i < |tys| ==> HasType(os, tys[i])
    ensures SumObjectionCounts(ObjectionGroups(os, tys)) == SizesOver(os, OfType, tys)
  {
    if tys != [] {
      ObjectionCountsAreSizes(os, tys[1..]);
      assert ObjectionGroups(os, tys)[1..] == ObjectionGroups(os, tys[1..]);
    }
  }

  /** The groups partition the user's objections: their counts add up to the number of rows. */
  lemma ObjectionGroupsPartition(t: Tables, k: UserId)
    ensures SumObjectionCounts(ObjectionTable(t, k)) == |OwnObjections(t, k)|
  {
    var os := OwnObjections(t, k);
    var tys := DistinctKeys(os, ObjectionType);
    TypesPresent(os);
    ObjectionCountsAreSizes(os, tys);
    GroupSizesSum(os, ObjectionType, OfType, tys);
  }

  /** Seven of ten "price" objections handled: a 70.00 % success rate. */
  lemma SuccessRateScenario()
    ensures SuccessRate(7, 10) == 7_000
  {
  }

  lemma PriceGroupScenario(handled: Objection, missed: Objection)
    requires handled.objectionType == "price" && handled.wasHandled
    requires missed.objectionType == "price" && !missed.wasHandled
    ensures ObjectionGroup(Copies(handled, 7) + Copies(missed, 3), "price") == ObjectionRow("price", 10, 7, 7_000)
  {
    var os := Copies(handled, 7) + Copies(missed, 3);
    InCopies(handled, 7);
    InCopies(missed, 3);
    WhereAll(os, OfType, "price");
    WhereAppend(Copies(handled, 7), Copies(missed, 3), HandledOfType, "price");
    WhereAll(Copies(handled, 7), HandledOfType, "price");
    WhereNone(Copies(missed, 3), HandledOfType, "price");
    GroupOfCounts(os, "price", 10, 7);
    SuccessRateScenario();
  }

  /** A group's row is determined by its two counts. */
  lemma GroupOfCounts(os: seq<Objection>, ty: string, count: nat, handled: nat)
    requires HasType(os, ty)
    requires |Where(os, OfType, ty)| == count && |Where(os, HandledOfType, ty)| == handled
    ensures 0 < count && handled <= count
    ensures ObjectionGroup(os, ty) == ObjectionRow(ty, count, handled, SuccessRate(handled, count))
  {
    var r := ObjectionGroup(os, ty);
    assert r.objectionType == ty && r.count == count && r.handledCount == handled;
  }

  // ----------------------------------------------------- top contact reasons

  /** One row of `getTopContactReasons`. */
  datatype ContactRow = ContactRow(reasonCategory: string, count: nat, resolvedCount: nat)

  function Category(r: ContactReason): string { r.category }
  predicate InCategory(r: ContactReason, cat: string) { r.category == cat }
  predicate ResolvedIn(r: ContactReason, cat: string) { r.category == cat && r.resolution == Resolved }

  function OwnContacts(t: Tables, userId: UserId): seq<ContactReason>
  {
    Where(t.contactReasons, OwnsContact, userId)
  }

  predicate HasCategory(rs: seq<ContactReason>, cat: string)
  {
    exists x :: x in rs && x.category == cat
  }

  function ContactGroup(rs: seq<ContactReason>, cat: string): (r: ContactRow)
    requires HasCategory(rs, cat)
    ensures r.reasonCategory == cat
    ensures r.count == |Where(rs, InCategory, cat)| >= 1
    ensures r.resolvedCount == |Where(rs, ResolvedIn, cat)| <= r.count
  {
    var x :| x in rs && x.category == cat;
    assert x in Where(rs, InCategory, cat);
    WhereMonotone(rs, ResolvedIn, cat, InCategory, cat);
    ContactRow(cat, |Where(rs, InCategory, cat)|, |Where(rs, ResolvedIn, cat)|)
  }

  function ContactRowCategory(r: ContactRow): string { r.reasonCategory }

  predicate WellFormedContactRow(r: ContactRow)
  {
    1 <= r.count && r.resolvedCount <= r.count
  }

  function ContactGroups(rs: seq<ContactReason>, cats: seq<string>): (rows: seq<ContactRow>)
    requires forall i :: 0 <= i < |cats| ==> HasCategory(rs, cats[i])
    ensures |rows| == |cats|
    ensures forall i :: 0 <= i < |cats| ==> rows[i] == ContactGroup(rs, cats[i])
    ensures forall i :: 0 <= i < |cats| ==> rows[i].reasonCategory == cats[i] && WellFormedContactRow(rows[i])
  {
    seq(|cats|, i requires 0 <= i < |cats| => ContactGroup(rs, cats[i]))
  }

  /** `GROUP BY reason_category` over the user's contact reasons: one row per distinct category. */
  function ContactTable(t: Tables, userId: UserId): (rows: seq<ContactRow>)
    ensures DistinctBy(rows, ContactRowCategory)
    ensures forall x :: x in rows ==> WellFormedContactRow(x)
  {
    var rs := OwnContacts(t, userId);
    CategoriesPresent(rs);
    ContactGroups(rs, DistinctKeys(rs, Category))
  }

  lemma CategoriesPresent(rs: seq<ContactReason>)
    ensures forall i :: 0 <= i < |DistinctKeys(rs, Category)| ==> HasCategory(rs, DistinctKeys(rs, Category)[i])
  {
    var cats := DistinctKeys(rs, Category);
    forall i | 0 <= i < |cats| ensures HasCategory(rs, cats[i]) {
      assert cats[i] in cats;
    }
  }

  function ContactRank(r: ContactRow): Rank { Rank(r.count, None) }

  /** `getTopContactReasons(userId, limit)`. */
  function TopContactReasons(t: Tables, userId: UserId, limit: int): (r: seq<ContactRow>)
    ensures Descending(r, ContactRank)
    ensures multiset(r) <= multiset(ContactTable(t, userId))
    ensures limit >= 0 ==> |r| <= limit
    ensures limit >= 0 ==> |r| == if limit < |ContactTable(t, userId)| then limit else |ContactTable(t, userId)|
    ensures limit < 0 ==> multiset(r) == multiset(ContactTable(t, userId))
    ensures forall i :: 0 <= i < |r| ==> WellFormedContactRow(r[i])
    ensures DistinctBy(r, ContactRowCategory)
  {
    var table := ContactTable(t, userId);
    var r := Top(table, ContactRank, limit);
    DistinctBySubMultiset(table, r, ContactRowCategory);
    forall i | 0 <= i < |r| ensures WellFormedContactRow(r[i]) {
      assert r[i] in multiset(table);
    }
    r
  }
  /** Every group the limit cuts off ranks at or below every group it keeps. */
  lemma TopContactReasonsCutoff(t: Tables, k: UserId, limit: int)
    ensures var top := TopContactReasons(t, k, limit);
      forall x, y :: x in multiset(ContactTable(t, k)) - multiset(top) && y in top ==> RankLe(ContactRank(x), ContactRank(y))
  {
    TopDominates(ContactTable(t, k), ContactRank, limit);
  }


  function SumContactCounts(rows: seq<ContactRow>): nat
  {
    if rows == [] then 0 else rows[0].count + SumContactCounts(rows[1..])
  }

  lemma {:induction false} ContactCountsAreSizes(rs: seq<ContactReason>, cats: seq<string>)
    requires forall i :: 0 <= i < |cats| ==> HasCategory(rs, cats[i])
    ensures SumContactCounts(ContactGroups(rs, cats)) == SizesOver(rs, InCategory, cats)
  {
    if cats != [] {
      ContactCountsAreSizes(rs, cats[1..]);
      assert ContactGroups(rs, cats)[1..] == ContactGroups(rs, cats[1..]);
    }
  }

  /** The categories partition the user's contact reasons. */
  lemma ContactGroupsPartition(t: Tables, k: UserId)
    ensures SumContactCounts(ContactTable(t, k)) == |OwnContacts(t, k)|
  {
    var rs := OwnContacts(t, k);
    var cats := DistinctKeys(rs, Category);
    CategoriesPresent(rs);
    ContactCountsAreSizes(rs, cats);
    GroupSizesSum(rs, Category, InCategory, cats);
  }

  /** Both groupings read only the user's own rows. */
  lemma RankingsIsolation(t: Tables, k: UserId, limit: int)
    ensures TopObjections(t, k, limit) == TopObjections(OwnedBy(t, k), k, limit)
    ensures TopContactReasons(t, k, limit) == TopContactReasons(OwnedBy(t, k), k, limit)
  {
    WhereAbsorb(t.objections, OwnsObjection, k, OwnsObjection, k);
    WhereAbsorb(t.contactReasons, OwnsContact, k, OwnsContact, k);
  }
}
