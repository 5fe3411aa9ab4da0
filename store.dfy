/**
 * The shop's database and the handlers that write to it. Each handler runs
 * as one unit of work (a Prisma `$transaction`, or a single write): it
 * either fails with an error and leaves every table as it was, or performs
 * all of its writes.
 */
module Store {
  import opened Time
  import opened Records
  import opened Tables
  import opened StockLedger
  import opened OrderLifecycle
  import opened Finance

  /** Only income entries are linked to an order: every other entry has no order id */
  predicate LinkedAreIncome(ledger: seq<Transaction>) {
    forall t :: t in ledger && t.orderId.Some? ==> t.kind == Income
  }

  /**
   * The link from a ledger entry to an order is one-to-one (the relation
   * filter `transaction: null` of `syncTransactions` is the one-to-one
   * form, which the schema backs with a unique order id): no order has two
   * linked entries. Linked entries being income entries, that is at most
   * one income entry per order.
   */
  ghost predicate LinksUnique(ledger: seq<Transaction>) {
    LinkedAreIncome(ledger) && forall id: nat :: IncomeCount(ledger, id) <= 1
  }

  /** When only income entries are linked, the linked ids are the income ids */
  lemma LinkedIdsAreIncomeIds(ledger: seq<Transaction>)
    requires LinkedAreIncome(ledger)
    ensures LinkedOrderIds(ledger) == IncomeOrderIds(ledger)
  {
    forall id | id in LinkedOrderIds(ledger) ensures id in IncomeOrderIds(ledger) {
      var t :| t in ledger && t.orderId.Some? && t.orderId.value == id;
    }
    IncomeCountPositive(ledger, 0);
  }

  /** Entries linked to no order keep the links unique */
  lemma UnlinkedKeepsLinksUnique(ledger: seq<Transaction>, extra: seq<Transaction>)
    requires LinksUnique(ledger)
    requires forall t :: t in extra ==> t.orderId == None
    ensures LinksUnique(ledger + extra)
  {
    forall id: nat ensures IncomeCount(ledger + extra, id) == IncomeCount(ledger, id) {
      IncomeCountAppend(ledger, extra, id);
      IncomeCountUnlinked(extra, id);
    }
  }

  /** The sale of an order that no entry is linked to yet keeps the links unique */
  lemma SaleKeepsLinksUnique(ledger: seq<Transaction>, o: Order, now: Instant)
    requires LinksUnique(ledger) && o.id !in LinkedOrderIds(ledger)
    ensures LinksUnique(ledger + [SaleEntry(o, now)])
  {
    IncomeCountPositive(ledger, o.id);
    forall id: nat ensures IncomeCount(ledger + [SaleEntry(o, now)], id) <= 1 {
      CompletionPostsOnce(ledger, o, now, id);
    }
  }

  /**
   * The back-fill over the orders, with every order that has an income
   * entry counted as linked, keeps the links unique.
   */
  lemma BackfillKeepsLinksUnique(ledger: seq<Transaction>, orders: map<nat, Order>, n: nat,
                                 linked: set<nat>, forced: bool)
    requires LinksUnique(ledger)
    requires forall k :: k in orders ==> orders[k].id == k
    requires IncomeOrderIds(ledger) <= linked
    ensures LinksUnique(ledger + Backfill(Rows(orders, n), linked, forced))
  {
    var os := Rows(orders, n);
    var b := Backfill(os, linked, forced);
    RowsAscending(orders, n, OrderId);
    assert DistinctIds(os) by {
      forall i, j | 0 <= i < j < |os| ensures os[i].id != os[j].id {
        assert OrderId(os[i]) < OrderId(os[j]);
      }
    }
    BackfillMembers(os, linked, forced);
    forall id: nat ensures IncomeCount(ledger + b, id) <= 1 {
      IncomeCountAppend(ledger, b, id);
      BackfillCount(os, linked, forced, id);
      IncomeCountPositive(ledger, id);
    }
  }

  /** The purchase rebuild deletes and adds only unlinked entries, so it keeps the links unique */
  lemma RebuildKeepsLinksUnique(ledger: seq<Transaction>, items: seq<StockItem>)
    requires LinksUnique(ledger)
    ensures LinksUnique(Keep(ledger) + RebuiltPurchases(items))
  {
    KeepMembers(ledger);
    forall id: nat ensures IncomeCount(Keep(ledger), id) <= 1 {
      IncomeCountKeep(ledger, id);
    }
    UnlinkedKeepsLinksUnique(Keep(ledger), RebuiltPurchases(items));
  }

  /**
   * The ledger's income is sound when no order has two income entries, and
   * every income entry linked to an order belongs to an existing, completed order.
   */
  ghost predicate IncomeSound(ledger: seq<Transaction>, orders: map<nat, Order>) {
    (forall id: nat :: IncomeCount(ledger, id) <= 1)
    && (forall id: nat :: IncomeCount(ledger, id) > 0 ==> id in orders && orders[id].status == Completed)
  }

  lemma {:induction false} IncomeCountUnlinked(s: seq<Transaction>, id: nat)
    requires forall t :: t in s ==> t.kind == Expense || t.orderId == None
    ensures IncomeCount(s, id) == 0
  {
    if s != [] {
      assert s[0] in s;
      assert forall t :: t in s[1..] ==> t in s;
      IncomeCountUnlinked(s[1..], id);
    }
  }

  /** Expenses, and entries linked to no order, keep the income sound */
  lemma UnlinkedKeepsIncomeSound(ledger: seq<Transaction>, orders: map<nat, Order>, extra: seq<Transaction>)
    requires IncomeSound(ledger, orders)
    requires forall t :: t in extra ==> t.kind == Expense || t.orderId == None
    ensures IncomeSound(ledger + extra, orders)
  {
    forall id: nat ensures IncomeCount(ledger + extra, id) == IncomeCount(ledger, id) {
      IncomeCountAppend(ledger, extra, id);
      IncomeCountUnlinked(extra, id);
    }
  }

  /** A new order under a fresh id keeps the income sound */
  lemma NewOrderKeepsIncomeSound(ledger: seq<Transaction>, orders: map<nat, Order>, o: Order)
    requires IncomeSound(ledger, orders) && o.id !in orders
    ensures IncomeSound(ledger, orders[o.id := o])
  {
  }

  /**
   * Completing an order that is not yet completed posts its first and only
   * income entry and keeps the income sound.
   */
  lemma CompletionKeepsIncomeSound(ledger: seq<Transaction>, orders: map<nat, Order>, id: nat, now: Instant)
    requires IncomeSound(ledger, orders) && id in orders && orders[id].id == id && orders[id].status != Completed
    ensures var after := ledger + [SaleEntry(orders[id], now)];
            IncomeCount(after, id) == 1
            && IncomeSound(after, orders[id := WithStatus(orders[id], Completed, now)])
  {
    var after := ledger + [SaleEntry(orders[id], now)];
    forall k: nat ensures IncomeCount(after, k) == IncomeCount(ledger, k) + (if k == id then 1 else 0) {
      CompletionPostsOnce(ledger, orders[id], now, k);
    }
  }

  /** Any status update keeps the income sound, except one that takes a completed order out of Completed */
  lemma StatusChangeKeepsIncomeSound(ledger: seq<Transaction>, orders: map<nat, Order>, id: nat,
                                     s: OrderStatus, now: Instant)
    requires IncomeSound(ledger, orders) && id in orders
    requires orders[id].status != Completed || s == Completed
    ensures IncomeSound(ledger, orders[id := WithStatus(orders[id], s, now)])
  {
  }

  /**
   * The non-Completed branch of the status update has no guard: reopening a
   * completed order that has its income breaks soundness. The order keeps
   * its linked entry, and a second sale for it would break the one-to-one
   * link, so completing it again is refused (`UpdateOrderStatus` fails with
   * `LinkTaken`) and the reopened order can never be completed.
   */
  lemma ReopenedOrderStaysLinked(ledger: seq<Transaction>, orders: map<nat, Order>, id: nat,
                                 now1: Instant, now2: Instant)
    requires IncomeSound(ledger, orders) && id in orders && orders[id].id == id && IncomeCount(ledger, id) == 1
    ensures var reopened := WithStatus(orders[id], Pending, now1);
            !IncomeSound(ledger, orders[id := reopened])
            && reopened.status != Completed
            && id in LinkedOrderIds(ledger)
            && !LinksUnique(ledger + [SaleEntry(reopened, now2)])
  {
    var reopened := WithStatus(orders[id], Pending, now1);
    IncomeCountPositive(ledger, id);
    CompletionPostsOnce(ledger, reopened, now2, id);
  }

  /**
   * A back-fill over the orders, with every order that has an income entry
   * counted as linked, gives each missing completed order its single income
   * entry and keeps the income sound.
   */
  lemma BackfillKeepsIncomeSound(ledger: seq<Transaction>, orders: map<nat, Order>, n: nat,
                                 linked: set<nat>, forced: bool)
    requires IncomeSound(ledger, orders)
    requires forall k :: k in orders ==> orders[k].id == k
    requires IncomeOrderIds(ledger) <= linked
    ensures IncomeSound(ledger + Backfill(Rows(orders, n), linked, forced), orders)
  {
    var os := Rows(orders, n);
    var b := Backfill(os, linked, forced);
    RowsAscending(orders, n, OrderId);
    assert DistinctIds(os) by {
      forall i, j | 0 <= i < j < |os| ensures os[i].id != os[j].id {
        assert OrderId(os[i]) < OrderId(os[j]);
      }
    }
    forall id: nat
      ensures IncomeCount(ledger + b, id) <= 1
      ensures IncomeCount(ledger + b, id) > 0 ==> id in orders && orders[id].status == Completed
    {
      IncomeCountAppend(ledger, b, id);
      BackfillCount(os, linked, forced, id);
      IncomeCountPositive(ledger, id);
      if exists o :: o in os && o.id == id && Missing(o, linked) {
        var o :| o in os && o.id == id && Missing(o, linked);
        var k :| 0 <= k < n && k in orders && orders[k] == o;
        assert k == id;
      }
    }
  }

  /** The full sync keeps the income sound */
  lemma SyncAllKeepsIncomeSound(ledger: seq<Transaction>, orders: map<nat, Order>, n: nat, items: seq<StockItem>)
    requires IncomeSound(ledger, orders)
    requires forall k :: k in orders ==> orders[k].id == k
    ensures IncomeSound(SyncAll(ledger, Rows(orders, n), items), orders)
  {
    var filled := ledger + Backfill(Rows(orders, n), IncomeOrderIds(ledger), true);
    BackfillKeepsIncomeSound(ledger, orders, n, IncomeOrderIds(ledger), true);
    var rebuilt := RebuiltPurchases(items);
    forall id: nat ensures IncomeCount(SyncAll(ledger, Rows(orders, n), items), id) == IncomeCount(filled, id) {
      IncomeCountAppend(Keep(filled), rebuilt, id);
      IncomeCountUnlinked(rebuilt, id);
      IncomeCountKeep(filled, id);
    }
  }

  /** The purchase entries `syncAllData` creates, one stock item at a time */
  method RebuiltFor(items: seq<StockItem>) returns (added: seq<Transaction>)
    ensures added == RebuiltPurchases(items)
  {
    added := [];
    var j := 0;
    while j < |items|
      invariant 0 <= j <= |items|
      invariant added == RebuiltPurchases(items[..j])
    {
      var item := items[j];
      assert items[..j + 1] == items[..j] + [item];
      RebuiltSnoc(items[..j], item);
      if Value(item) > 0.0 {
        added := added + [RebuiltEntry(item)];
      }
      j := j + 1;
    }
    assert items[..j] == items;
  }

  class Store {
    var stocks: map<nat, StockItem>
    var nextStockId: nat
    var logs: seq<StockLog>
    var ledger: seq<Transaction>
    var orders: map<nat, Order>
    var nextOrderId: nat

    /**
     * Each row is stored under its own id, every id is below the next one
     * to be given out, and the order links of the ledger are one-to-one.
     */
    ghost predicate Valid()
      reads this
    {
      (forall k :: k in stocks ==> k < nextStockId && stocks[k].id == k)
      && (forall k :: k in orders ==> k < nextOrderId && orders[k].id == k)
      && LinksUnique(ledger)
    }

    ghost predicate IncomeInvariant()
      reads this
    {
      IncomeSound(ledger, orders)
    }

    ghost predicate StockNonNegative()
      reads this
    {
      forall k :: k in stocks ==> stocks[k].quantity >= 0.0
    }

    /** An empty database; ids are given out from 1 */
    constructor ()
      ensures Valid() && IncomeInvariant() && StockNonNegative()
      ensures stocks == map[] && logs == [] && ledger == [] && orders == map[]
      ensures nextStockId == 1 && nextOrderId == 1
    {
      stocks, nextStockId, logs := map[], 1, [];
      ledger, orders, nextOrderId := [], map[], 1;
    }

    /**
     * `createStockInit`: store the new item costed from the total or the
     * unit cost, log its whole quantity as a RESTOCK, and post the purchase
     * expense when its total is positive. A cost that leaves the item with
     * a NaN unit cost fails with nothing written.
     */
    method CreateStockInit(name: string, category: string, quantity: real, unit: string,
                           cost: Field, costPerUnit: Field, now: Instant) returns (r: Outcome, id: nat)
      requires Valid()
      modifies this
      ensures Valid()
      ensures var c := InitialCosting(quantity, cost, costPerUnit);
              r == if c.Ok? then Pass else Fail(c.error)
      ensures r.Fail? ==> unchanged(this)
      ensures r.Pass? ==>
                var c := InitialCosting(quantity, cost, costPerUnit).value;
                id == old(nextStockId) && id !in old(stocks) && nextStockId == id + 1
                && stocks == old(stocks)[id := NewItem(id, name, category, quantity, unit, c, now)]
                && logs == old(logs) + [InitialLog(stocks[id], now)]
                && ledger == old(ledger) + CreationPurchase(name, c.total, now)
      ensures orders == old(orders) && nextOrderId == old(nextOrderId)
      ensures old(IncomeInvariant()) ==> IncomeInvariant()
      ensures old(StockNonNegative()) && quantity >= 0.0 ==> StockNonNegative()
    {
      var costing := InitialCosting(quantity, cost, costPerUnit);
      if costing.Err? {
        return Fail(costing.error), 0;
      }
      var c := costing.value;
      id := nextStockId;
      var item := NewItem(id, name, category, quantity, unit, c, now);
      stocks := stocks[id := item];
      nextStockId := nextStockId + 1;
      logs := logs + [InitialLog(item, now)];
      var purchase := CreationPurchase(name, c.total, now);
      ledger := ledger + purchase;
      UnlinkedKeepsLinksUnique(old(ledger), purchase);
      if old(IncomeInvariant()) {
        UnlinkedKeepsIncomeSound(old(ledger), orders, purchase);
      }
      r := Pass;
    }

    /**
     * `restockItem`: a missing item fails with nothing written; otherwise
     * add the batch at the weighted-average cost, log it as a RESTOCK at the
     * new unit cost, and post the batch cost as a purchase expense.
     */
    method RestockItem(id: nat, added: real, batchCost: real, supplier: string, now: Instant) returns (r: Outcome)
      requires Valid()
      modifies this
      ensures Valid()
      ensures r == if id in old(stocks) then Pass else Fail(NotFound)
      ensures r.Fail? ==> unchanged(this)
      ensures r.Pass? ==> var item := old(stocks)[id];
                          var after := AfterRestock(item, added, batchCost, supplier);
                          stocks == old(stocks)[id := after]
                          && logs == old(logs) + [RestockLog(item, added, after.costPerUnit, now)]
                          && ledger == old(ledger) + [RestockEntry(item, added, batchCost, now)]
      ensures nextStockId == old(nextStockId) && orders == old(orders) && nextOrderId == old(nextOrderId)
      ensures old(IncomeInvariant()) ==> IncomeInvariant()
      ensures old(StockNonNegative()) && added >= 0.0 ==> StockNonNegative()
    {
      if id !in stocks {
        return Fail(NotFound);
      }
      var item := stocks[id];
      var after := AfterRestock(item, added, batchCost, supplier);
      stocks := stocks[id := after];
      logs := logs + [RestockLog(item, added, after.costPerUnit, now)];
      ledger := ledger + [RestockEntry(item, added, batchCost, now)];
      UnlinkedKeepsLinksUnique(old(ledger), [RestockEntry(item, added, batchCost, now)]);
      if old(IncomeInvariant()) {
        UnlinkedKeepsIncomeSound(old(ledger), orders, [RestockEntry(item, added, batchCost, now)]);
      }
      r := Pass;
    }

    /**
     * `useStockItem`: a missing item, or a deduction larger than the
     * quantity on hand, fails with nothing written; otherwise deduct the
     * amount at an unchanged unit cost and log it, posting no entry.
     */
    method UseStockItem(id: nat, used: real, reason: string, kind: Option<LogType>, now: Instant) returns (r: Outcome)
      requires Valid()
      modifies this
      ensures Valid()
      ensures r == if id !in old(stocks) then Fail(NotFound)
                   else if old(stocks)[id].quantity < used then Fail(InsufficientStock)
                   else Pass
      ensures r.Fail? ==> unchanged(this)
      ensures r.Pass? ==> stocks == old(stocks)[id := AfterUse(old(stocks)[id], used)]
                          && logs == old(logs) + [UseLog(old(stocks)[id], used, reason, kind, now)]
      ensures ledger == old(ledger)
      ensures nextStockId == old(nextStockId) && orders == old(orders) && nextOrderId == old(nextOrderId)
      ensures old(IncomeInvariant()) ==> IncomeInvariant()
      ensures old(StockNonNegative()) ==> StockNonNegative()
    {
      if id !in stocks {
        return Fail(NotFound);
      }
      var item := stocks[id];
      if item.quantity < used {
        return Fail(InsufficientStock);
      }
      stocks := stocks[id := AfterUse(item, used)];
      logs := logs + [UseLog(item, used, reason, kind, now)];
      r := Pass;
    }

    /**
     * `deleteStock`: a missing item fails with nothing written; otherwise
     * post minus the item's value as a stock adjustment when that value is
     * positive, and remove the item.
     */
    method DeleteStock(id: nat, now: Instant) returns (r: Outcome)
      requires Valid()
      modifies this
      ensures Valid()
      ensures r == if id in old(stocks) then Pass else Fail(NotFound)
      ensures r.Fail? ==> unchanged(this)
      ensures r.Pass? ==> stocks == old(stocks) - {id}
                          && ledger == old(ledger) + RemovalAdjustment(old(stocks)[id], now)
      ensures logs == old(logs)
      ensures nextStockId == old(nextStockId) && orders == old(orders) && nextOrderId == old(nextOrderId)
      ensures old(IncomeInvariant()) ==> IncomeInvariant()
      ensures old(StockNonNegative()) ==> StockNonNegative()
    {
      if id !in stocks {
        return Fail(NotFound);
      }
      var adjustment := RemovalAdjustment(stocks[id], now);
      ledger := ledger + adjustment;
      stocks := stocks - {id};
      UnlinkedKeepsLinksUnique(old(ledger), adjustment);
      if old(IncomeInvariant()) {
        UnlinkedKeepsIncomeSound(old(ledger), orders, adjustment);
      }
      r := Pass;
    }

    /** `createOrder`: store a Pending order under the next id, with its line items */
    method CreateOrder(req: OrderRequest, now: Instant) returns (id: nat)
      requires Valid()
      modifies this
      ensures Valid()
      ensures id == old(nextOrderId) && id !in old(orders) && nextOrderId == id + 1
      ensures orders == old(orders)[id := NewOrder(id, req, now)]
      ensures stocks == old(stocks) && logs == old(logs) && ledger == old(ledger)
      ensures nextStockId == old(nextStockId)
      ensures old(IncomeInvariant()) ==> IncomeInvariant()
    {
      id := nextOrderId;
      var o := NewOrder(id, req, now);
      orders := orders[id := o];
      nextOrderId := nextOrderId + 1;
      if old(IncomeInvariant()) {
        NewOrderKeepsIncomeSound(ledger, old(orders), o);
      }
    }

    /**
     * `updateOrderStatus`. Completing: a missing or already completed order
     * fails with nothing written; so does an order that already has a
     * linked entry, as the sale cannot be linked to it a second time;
     * otherwise mark it completed and post its sale. Any other status: a
     * missing order fails; otherwise only the status changes, with no check
     * of the current status.
     */
    method UpdateOrderStatus(id: nat, status: OrderStatus, now: Instant) returns (r: Outcome)
      requires Valid()
      modifies this
      ensures Valid()
      ensures r == if status == Completed then
                     (if id !in old(orders) || old(orders)[id].status == Completed then Fail(OrderHandled)
                      else if id in LinkedOrderIds(old(ledger)) then Fail(LinkTaken)
                      else Pass)
                   else
                     (if id in old(orders) then Pass else Fail(NotFound))
      ensures r.Fail? ==> unchanged(this)
      ensures r.Pass? ==> orders == old(orders)[id := WithStatus(old(orders)[id], status, now)]
                          && ledger == old(ledger) + (if status == Completed then [SaleEntry(old(orders)[id], now)] else [])
      ensures stocks == old(stocks) && logs == old(logs)
      ensures nextStockId == old(nextStockId) && nextOrderId == old(nextOrderId)
      ensures old(IncomeInvariant()) && (status == Completed || id !in old(orders) || old(orders)[id].status != Completed)
              ==> IncomeInvariant()
      ensures r.Pass? && status == Completed && old(IncomeInvariant()) ==> IncomeCount(ledger, id) == 1
      ensures old(IncomeInvariant()) ==> r != Fail(LinkTaken)
    {
      if status == Completed {
        if id !in orders || orders[id].status == Completed {
          return Fail(OrderHandled);
        }
        if id in LinkedOrderIds(ledger) {
          if old(IncomeInvariant()) {
            LinkedIdsAreIncomeIds(ledger);
            IncomeCountPositive(ledger, id);
            assert false;
          }
          return Fail(LinkTaken);
        }
        var existing := orders[id];
        orders := orders[id := WithStatus(existing, Completed, now)];
        ledger := ledger + [SaleEntry(existing, now)];
        SaleKeepsLinksUnique(old(ledger), existing, now);
        if old(IncomeInvariant()) {
          CompletionKeepsIncomeSound(old(ledger), old(orders), id, now);
        }
      } else {
        if id !in orders {
          return Fail(NotFound);
        }
        orders := orders[id := WithStatus(orders[id], status, now)];
        if old(IncomeInvariant()) && old(orders)[id].status != Completed {
          StatusChangeKeepsIncomeSound(ledger, old(orders), id, status, now);
        }
      }
      r := Pass;
    }

    /**
     * Post an income entry, dated at the order's last update, for every
     * completed order whose id is not in `linked`, in id order, and count them.
     */
    method PostMissingIncome(linked: set<nat>, forced: bool) returns (count: nat)
      requires Valid()
      requires IncomeOrderIds(ledger) <= linked
      modifies this
      ensures Valid()
      ensures var added := Backfill(Rows(orders, nextOrderId), linked, forced);
              ledger == old(ledger) + added && count == |added|
      ensures stocks == old(stocks) && logs == old(logs) && orders == old(orders)
      ensures nextStockId == old(nextStockId) && nextOrderId == old(nextOrderId)
    {
      var os := Rows(orders, nextOrderId);
      count := 0;
      var i := 0;
      while i < |os|
        invariant 0 <= i <= |os|
        invariant ledger == old(ledger) + Backfill(os[..i], linked, forced)
        invariant count == |Backfill(os[..i], linked, forced)|
        invariant stocks == old(stocks) && logs == old(logs) && orders == old(orders)
        invariant nextStockId == old(nextStockId) && nextOrderId == old(nextOrderId)
      {
        assert os[..i + 1] == os[..i] + [os[i]];
        BackfillSnoc(os[..i], os[i], linked, forced);
        if Missing(os[i], linked) {
          ledger := ledger + [BackfillEntry(os[i], forced)];
          count := count + 1;
        }
        i := i + 1;
      }
      assert os[..i] == os;
      BackfillKeepsLinksUnique(old(ledger), orders, nextOrderId, linked, forced);
    }

    /**
     * `syncTransactions`: post an income entry, dated at the order's last
     * update, for every completed order that no entry is linked to, and
     * count them; nothing is written when there are none.
     */
    method SyncTransactions() returns (count: nat)
      requires Valid()
      modifies this
      ensures Valid()
      ensures var added := Backfill(Rows(old(orders), nextOrderId), LinkedOrderIds(old(ledger)), false);
              ledger == old(ledger) + added && count == |added|
      ensures stocks == old(stocks) && logs == old(logs) && orders == old(orders)
      ensures nextStockId == old(nextStockId) && nextOrderId == old(nextOrderId)
      ensures old(IncomeInvariant()) ==> IncomeInvariant()
    {
      var linked := LinkedOrderIds(ledger);
      IncomeCountPositive(ledger, 0);
      count := PostMissingIncome(linked, false);
      if old(IncomeInvariant()) {
        IncomeCountPositive(old(ledger), 0);
        BackfillKeepsIncomeSound(old(ledger), orders, nextOrderId, linked, false);
      }
    }

    /** `createTransaction`: post a manual entry, or fail with nothing written when the amount is unusable */
    method CreateTransaction(kind: TxType, amount: Field, category: string, description: string,
                             now: Instant) returns (r: Outcome)
      requires Valid()
      modifies this
      ensures Valid()
      ensures var e := ManualEntry(kind, amount, category, description, now);
              (r.Pass? <==> e.Ok?)
              && (e.Err? ==> r == Fail(e.error) && unchanged(this))
              && (e.Ok? ==> ledger == old(ledger) + [e.value])
      ensures stocks == old(stocks) && logs == old(logs) && orders == old(orders)
      ensures nextStockId == old(nextStockId) && nextOrderId == old(nextOrderId)
      ensures old(IncomeInvariant()) ==> IncomeInvariant()
    {
      var e := ManualEntry(kind, amount, category, description, now);
      if e.Err? {
        return Fail(e.error);
      }
      ledger := ledger + [e.value];
      UnlinkedKeepsLinksUnique(old(ledger), [e.value]);
      if old(IncomeInvariant()) {
        UnlinkedKeepsIncomeSound(old(ledger), orders, [e.value]);
      }
      r := Pass;
    }

    /** Delete every stock purchase, then post one per item of positive value, in id order, and count them */
    method RebuildPurchases() returns (count: nat)
      requires Valid()
      modifies this
      ensures Valid()
      ensures var items := Rows(stocks, nextStockId);
              ledger == Keep(old(ledger)) + RebuiltPurchases(items) && count == |RebuiltPurchases(items)|
      ensures stocks == old(stocks) && logs == old(logs) && orders == old(orders)
      ensures nextStockId == old(nextStockId) && nextOrderId == old(nextOrderId)
    {
      var added := RebuiltFor(Rows(stocks, nextStockId));
      ledger := Keep(ledger) + added;
      count := |added|;
      RebuildKeepsLinksUnique(old(ledger), Rows(stocks, nextStockId));
    }

    /**
     * `syncAllData`: back-fill income for every completed order without an
     * income entry, then delete every stock purchase and re-create one per
     * item of positive value, counting both.
     */
    method SyncAllData() returns (incomeCount: nat, expenseCount: nat)
      requires Valid()
      modifies this
      ensures Valid()
      ensures var os := Rows(old(orders), nextOrderId);
              var items := Rows(old(stocks), nextStockId);
              ledger == SyncAll(old(ledger), os, items)
              && incomeCount == |Backfill(os, IncomeOrderIds(old(ledger)), true)|
              && expenseCount == |RebuiltPurchases(items)|
      ensures stocks == old(stocks) && logs == old(logs) && orders == old(orders)
      ensures nextStockId == old(nextStockId) && nextOrderId == old(nextOrderId)
      ensures old(IncomeInvariant()) ==> IncomeInvariant()
    {
      incomeCount := PostMissingIncome(IncomeOrderIds(ledger), true);
      expenseCount := RebuildPurchases();
      if old(IncomeInvariant()) {
        SyncAllKeepsIncomeSound(old(ledger), orders, nextOrderId, Rows(stocks, nextStockId));
      }
    }
  }
}
