/**
 * The value-level logic of the order handlers (backend/src/controllers/orderController.ts):
 * the order row `createOrder` stores, the income entry a completion posts,
 * the count of income entries linked to an order, the income back-fill of
 * the sync handlers, and the page arithmetic of `getOrders`.
 */
module OrderLifecycle {
  import opened Time
  import opened Records
  import opened Timeline

  const DefaultCustomer: string := "General Customer"
  const DefaultPayment: string := "Cash"
  const DefaultPage: int := 1
  const DefaultLimit: int := 50

  // ----- creating -----

  /** The line items of an order: product id, name, quantity and price as sent */
  function Snapshot(items: seq<RequestItem>): (r: seq<OrderItem>)
    ensures |r| == |items|
    ensures forall i :: 0 <= i < |items| ==>
              r[i] == OrderItem(items[i].id, items[i].name, items[i].quantity, items[i].price)
  {
    if items == [] then []
    else [OrderItem(items[0].id, items[0].name, items[0].quantity, items[0].price)] + Snapshot(items[1..])
  }

  /** The row `createOrder` stores: Pending, with the customer and payment defaults */
  function NewOrder(id: nat, req: OrderRequest, now: Instant): (o: Order)
    ensures o.id == id && o.status == Pending && o.totalAmount == req.totalAmount
    ensures o.customerName == if req.customerName == "" then DefaultCustomer else req.customerName
    ensures o.paymentMethod == if req.paymentMethod == "" then DefaultPayment else req.paymentMethod
    ensures o.items == Snapshot(req.items) && |o.items| == |req.items|
    ensures o.discordUserId == req.discordUserId && o.discordChannelId == req.discordChannelId
    ensures o.createdAt == now && o.updatedAt == now
  {
    Order(id,
          if req.customerName == "" then DefaultCustomer else req.customerName,
          Snapshot(req.items),
          req.totalAmount,
          if req.paymentMethod == "" then DefaultPayment else req.paymentMethod,
          Pending,
          req.discordUserId,
          req.discordChannelId,
          now, now)
  }

  // ----- status updates -----

  /** The row after a status update: the status, and the store's update timestamp */
  function WithStatus(o: Order, s: OrderStatus, now: Instant): (r: Order)
    ensures r.status == s && r.updatedAt == now
    ensures r.(status := o.status, updatedAt := o.updatedAt) == o
  {
    o.(status := s, updatedAt := now)
  }

  /** The income a completion posts: the order's total, category Sales, linked by id */
  function SaleEntry(o: Order, now: Instant): (t: Transaction)
    ensures t.kind == Income && t.amount == o.totalAmount && t.category == SalesCategory
    ensures t.orderId == Some(o.id) && t.createdAt == now
  {
    Transaction(Income, o.totalAmount, SalesCategory, OrderSale(o.id), Some(o.id), now)
  }

  // ----- income entries linked to orders -----

  predicate IsIncomeOf(t: Transaction, id: nat) {
    t.kind == Income && t.orderId == Some(id)
  }

  /** How many income entries of the ledger are linked to order `id` */
  function IncomeCount(ledger: seq<Transaction>, id: nat): nat {
    if ledger == [] then 0
    else (if IsIncomeOf(ledger[0], id) then 1 else 0) + IncomeCount(ledger[1..], id)
  }

  /** The ids of orders some income entry is linked to */
  function IncomeOrderIds(ledger: seq<Transaction>): set<nat> {
    set t | t in ledger && t.kind == Income && t.orderId.Some? :: t.orderId.value
  }

  /** The ids of orders some entry of any kind is linked to */
  function LinkedOrderIds(ledger: seq<Transaction>): set<nat> {
    set t | t in ledger && t.orderId.Some? :: t.orderId.value
  }

  lemma {:induction false} IncomeCountAppend(a: seq<Transaction>, b: seq<Transaction>, id: nat)
    ensures IncomeCount(a + b, id) == IncomeCount(a, id) + IncomeCount(b, id)
  {
    if a == [] {
      assert a + b == b;
    } else {
      assert (a + b)[0] == a[0];
      assert (a + b)[1..] == a[1..] + b;
      IncomeCountAppend(a[1..], b, id);
    }
  }

  /** An order has a linked income entry exactly when its id is among the income order ids */
  lemma {:induction false} IncomeCountPositive(ledger: seq<Transaction>, id: nat)
    ensures IncomeCount(ledger, id) > 0 <==> id in IncomeOrderIds(ledger)
    ensures IncomeOrderIds(ledger) <= LinkedOrderIds(ledger)
  {
    if ledger != [] {
      IncomeCountPositive(ledger[1..], id);
      assert ledger == [ledger[0]] + ledger[1..];
      assert IncomeOrderIds(ledger) == IncomeOrderIds([ledger[0]]) + IncomeOrderIds(ledger[1..]);
    }
  }

  /** Completion adds exactly one income entry for the completed order and none for any other */
  lemma CompletionPostsOnce(ledger: seq<Transaction>, o: Order, now: Instant, id: nat)
    ensures IncomeCount(ledger + [SaleEntry(o, now)], id)
            == IncomeCount(ledger, id) + (if id == o.id then 1 else 0)
  {
    IncomeCountAppend(ledger, [SaleEntry(o, now)], id);
  }

  // ----- back-filling missing income -----

  /** Whether an entry was back-filled by the full sync (`syncAllData`) rather than the order sync */
  function BackfillEntry(o: Order, forced: bool): (t: Transaction)
    ensures IsIncomeOf(t, o.id) && t.amount == o.totalAmount && t.category == SalesCategory
    ensures t.createdAt == o.updatedAt
  {
    Transaction(Income, o.totalAmount, SalesCategory,
                if forced then ForceSyncedSale(o.id) else SyncedSale(o.id),
                Some(o.id), o.updatedAt)
  }

  predicate Missing(o: Order, linked: set<nat>) {
    o.status == Completed && o.id !in linked
  }

  /** The income entries a sync back-fills: see `BackfillMembers` */
  function Backfill(os: seq<Order>, linked: set<nat>, forced: bool): seq<Transaction> {
    if os == [] then []
    else (if Missing(os[0], linked) then [BackfillEntry(os[0], forced)] else []) + Backfill(os[1..], linked, forced)
  }

  /**
   * The back-fill holds one income entry per completed order whose id is
   * not in `linked`, each dated at the order's last update, and nothing
   * else; it is empty exactly when no completed order is missing.
   */
  lemma {:induction false} BackfillMembers(os: seq<Order>, linked: set<nat>, forced: bool)
    ensures var r := Backfill(os, linked, forced);
            && (forall t :: t in r ==> exists o :: o in os && Missing(o, linked) && t == BackfillEntry(o, forced))
            && (forall o :: o in os && Missing(o, linked) ==> BackfillEntry(o, forced) in r)
            && (r == [] <==> forall o :: o in os ==> !Missing(o, linked))
  {
    if os != [] {
      BackfillMembers(os[1..], linked, forced);
      assert forall o :: o in os[1..] ==> o in os;
      assert forall o :: o in os ==> o == os[0] || o in os[1..];
    }
  }

  /** The back-fill posts at most one entry per order */
  lemma {:induction false} BackfillSize(os: seq<Order>, linked: set<nat>, forced: bool)
    ensures |Backfill(os, linked, forced)| <= |os|
  {
    if os != [] {
      BackfillSize(os[1..], linked, forced);
    }
  }

  /** Back-filling one more order appends its entry exactly when it is missing */
  lemma BackfillSnoc(os: seq<Order>, o: Order, linked: set<nat>, forced: bool)
    ensures Backfill(os + [o], linked, forced)
            == Backfill(os, linked, forced) + (if Missing(o, linked) then [BackfillEntry(o, forced)] else [])
  {
    BackfillAppend(os, [o], linked, forced);
    assert [o][1..] == [];
  }

  lemma {:induction false} BackfillAppend(a: seq<Order>, b: seq<Order>, linked: set<nat>, forced: bool)
    ensures Backfill(a + b, linked, forced) == Backfill(a, linked, forced) + Backfill(b, linked, forced)
  {
    if a == [] {
      assert a + b == b;
    } else {
      assert (a + b)[0] == a[0];
      assert (a + b)[1..] == a[1..] + b;
      BackfillAppend(a[1..], b, linked, forced);
    }
  }

  function OrderId(o: Order): nat { o.id }

  /** The ids of `os` are pairwise distinct */
  predicate DistinctIds(os: seq<Order>) {
    forall i, j :: 0 <= i < j < |os| ==> os[i].id != os[j].id
  }

  /** How many orders of `os` with id `id` are missing their income */
  function MissingCount(os: seq<Order>, linked: set<nat>, id: nat): nat {
    if os == [] then 0
    else (if os[0].id == id && Missing(os[0], linked) then 1 else 0) + MissingCount(os[1..], linked, id)
  }

  lemma {:induction false} BackfillCountsMissing(os: seq<Order>, linked: set<nat>, forced: bool, id: nat)
    ensures IncomeCount(Backfill(os, linked, forced), id) == MissingCount(os, linked, id)
  {
    if os != [] {
      var head := if Missing(os[0], linked) then [BackfillEntry(os[0], forced)] else [];
      assert Backfill(os, linked, forced) == head + Backfill(os[1..], linked, forced);
      IncomeCountAppend(head, Backfill(os[1..], linked, forced), id);
      BackfillCountsMissing(os[1..], linked, forced, id);
      if head != [] {
        assert head[1..] == [];
      }
    }
  }

  lemma {:induction false} MissingCountBound(os: seq<Order>, linked: set<nat>, id: nat)
    requires DistinctIds(os)
    ensures MissingCount(os, linked, id) <= 1
    ensures MissingCount(os, linked, id) == 1 <==> exists o :: o in os && o.id == id && Missing(o, linked)
  {
    if os != [] {
      MissingCountBound(os[1..], linked, id);
      if os[0].id == id {
        MissingCountZero(os[1..], linked, id);
      }
      assert forall o :: o in os <==> o == os[0] || o in os[1..];
    }
  }

  lemma {:induction false} MissingCountZero(os: seq<Order>, linked: set<nat>, id: nat)
    requires forall o :: o in os ==> o.id != id
    ensures MissingCount(os, linked, id) == 0
  {
    if os != [] {
      assert os[0] in os;
      assert forall o :: o in os[1..] ==> o in os;
      MissingCountZero(os[1..], linked, id);
    }
  }

  /** Over orders with distinct ids, the back-fill links at most one income entry to each order */
  lemma BackfillCount(os: seq<Order>, linked: set<nat>, forced: bool, id: nat)
    requires DistinctIds(os)
    ensures IncomeCount(Backfill(os, linked, forced), id)
            == if exists o :: o in os && o.id == id && Missing(o, linked) then 1 else 0
  {
    BackfillCountsMissing(os, linked, forced, id);
    MissingCountBound(os, linked, id);
  }

  /** After a back-fill, every completed order has a linked income entry */
  lemma BackfillCovers(os: seq<Order>, ledger: seq<Transaction>, linked: set<nat>, forced: bool)
    ensures forall o :: o in os && o.status == Completed && o.id !in linked
              ==> o.id in IncomeOrderIds(ledger + Backfill(os, linked, forced))
  {
    BackfillMembers(os, linked, forced);
    forall o | o in os && o.status == Completed && o.id !in linked
      ensures o.id in IncomeOrderIds(ledger + Backfill(os, linked, forced))
    {
      var t := BackfillEntry(o, forced);
      assert t in ledger + Backfill(os, linked, forced);
    }
  }

  /**
   * The order sync (`syncTransactions`) settles: run again on the ledger it
   * produced, it finds no completed order without a linked entry.
   */
  lemma SyncTransactionsSettles(os: seq<Order>, ledger: seq<Transaction>)
    ensures var after := ledger + Backfill(os, LinkedOrderIds(ledger), false);
            Backfill(os, LinkedOrderIds(after), false) == []
  {
    var after := ledger + Backfill(os, LinkedOrderIds(ledger), false);
    BackfillCovers(os, ledger, LinkedOrderIds(ledger), false);
    BackfillMembers(os, LinkedOrderIds(after), false);
    IncomeCountPositive(after, 0);
    forall o | o in os && o.status == Completed ensures o.id in LinkedOrderIds(after) {
      if o.id in LinkedOrderIds(ledger) {
        var t :| t in ledger && t.orderId.Some? && t.orderId.value == o.id;
        assert t in after;
      }
    }
  }

  // ----- listing -----

  datatype PageQuery = PageQuery(page: Option<int>, limit: Option<int>)

  function OrderedAt(o: Order): Instant { o.createdAt }

  function PageOf(q: PageQuery): int { if q.page.Some? then q.page.value else DefaultPage }
  function LimitOf(q: PageQuery): int { if q.limit.Some? then q.limit.value else DefaultLimit }

  /** The orders newest first, as `getOrders` ranks them */
  function Ranked(rows: seq<Order>): (r: seq<Order>)
    ensures NewestFirst(r, OrderedAt) && multiset(r) == multiset(rows) && |r| == |rows|
  {
    SortNewest(rows, OrderedAt)
  }

  /** How many orders a page skips */
  function Skip(q: PageQuery): int {
    (PageOf(q) - 1) * LimitOf(q)
  }

  /**
   * One page of orders, newest first: skip (page - 1) * limit of them and
   * take limit. A negative limit takes from the far end of the ranking: the
   * window of |limit| orders that ends |skip| orders before the oldest one,
   * still newest first. Only a negative skip is rejected.
   */
  function GetOrders(rows: seq<Order>, q: PageQuery): (r: Result<seq<Order>>)
    ensures r.Ok? <==> Skip(q) >= 0
    ensures r.Ok? ==> NewestFirst(r.value, OrderedAt)
    ensures r.Ok? ==> forall o :: o in r.value ==> o in rows
    ensures r.Ok? && LimitOf(q) >= 0 ==>
              |r.value| == if Skip(q) >= |rows| then 0 else Min(LimitOf(q), |rows| - Skip(q))
    ensures r.Ok? && LimitOf(q) < 0 ==>
              |r.value| == if Skip(q) >= |rows| then 0 else Min(-LimitOf(q), |rows| - Skip(q))
  {
    var limit := LimitOf(q);
    var skip := Skip(q);
    if skip < 0 then Err(InvalidPage)
    else
      var ranked := Ranked(rows);
      var n := |ranked|;
      var lo := if limit >= 0 then Min(skip, n) else if n - skip + limit > 0 then n - skip + limit else 0;
      var hi := if limit >= 0 then Min(skip + limit, n) else if n - skip > 0 then n - skip else 0;
      SliceOfNewest(ranked, lo, hi);
      assert forall o :: o in ranked ==> o in multiset(rows);
      Ok(ranked[lo..hi])
  }

  /**
   * The first page with a limit of -k holds the k oldest orders (all of
   * them when there are fewer), newest first; any later page with a
   * negative limit has a negative skip and is rejected.
   */
  lemma NegativeLimitTakesOldest(rows: seq<Order>, k: int, p: int)
    requires k > 0 && p > 1
    ensures var r := GetOrders(rows, PageQuery(Some(1), Some(-k)));
            r.Ok? && r.value == Ranked(rows)[|rows| - Min(k, |rows|)..]
    ensures GetOrders(rows, PageQuery(Some(p), Some(-k))).Err?
  {
    var first := PageQuery(Some(1), Some(-k));
    assert Skip(first) == 0 && LimitOf(first) == -k;
    var n := |Ranked(rows)|;
    assert (if n + -k > 0 then n + -k else 0) == n - Min(k, n);
    assert Skip(PageQuery(Some(p), Some(-k))) == (p - 1) * -k;
    assert (p - 1) * k > 0;
  }

  lemma SliceOfNewest(ranked: seq<Order>, lo: int, hi: int)
    requires 0 <= lo <= hi <= |ranked| && NewestFirst(ranked, OrderedAt)
    ensures NewestFirst(ranked[lo..hi], OrderedAt)
    ensures forall o :: o in ranked[lo..hi] ==> o in ranked
  {
    var page := ranked[lo..hi];
    forall i, j | 0 <= i < j < |page| ensures AtOrBefore(OrderedAt(page[j]), OrderedAt(page[i])) {
      assert page[i] == ranked[lo + i] && page[j] == ranked[lo + j];
    }
  }

  lemma PageArithmetic(p: int, limit: int)
    requires p >= 1 && limit >= 0
    ensures (p - 1) * limit >= 0
    ensures p * limit == (p - 1) * limit + limit
    ensures (p + 1) * limit == (p - 1) * limit + 2 * limit
  {
    assert p * limit == (p - 1) * limit + limit;
    assert (p + 1) * limit == p * limit + limit;
  }

  /** Consecutive pages meet exactly: page p followed by page p+1 is the next 2·limit of the ranking */
  lemma PagesAdjoin(rows: seq<Order>, p: int, limit: int)
    requires p >= 1 && limit >= 0
    ensures var a := GetOrders(rows, PageQuery(Some(p), Some(limit)));
            var b := GetOrders(rows, PageQuery(Some(p + 1), Some(limit)));
            var n := |rows|;
            a.Ok? && b.Ok?
            && a.value + b.value == Ranked(rows)[Min((p - 1) * limit, n)..Min((p + 1) * limit, n)]
  {
    var qa := PageQuery(Some(p), Some(limit));
    var qb := PageQuery(Some(p + 1), Some(limit));
    var start := (p - 1) * limit;
    PageArithmetic(p, limit);
    assert Skip(qa) == start;
    assert Skip(qb) == start + limit;
    var ranked := Ranked(rows);
    var n := |rows|;
    assert ranked[Min(start, n)..Min(start + limit, n)] + ranked[Min(start + limit, n)..Min(start + 2 * limit, n)]
        == ranked[Min(start, n)..Min(start + 2 * limit, n)];
  }
}
