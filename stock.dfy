/**
 * The value-level logic of the stock handlers (backend/src/controllers/stockController.ts):
 * how a new item is costed, the weighted-average rule of a restock, the
 * rows and entries each handler writes, and the two read-only queries.
 * The handlers themselves, which write these rows, are methods of Store.
 */
module StockLedger {
  import opened Time
  import opened Records
  import opened Timeline

  const DefaultCategory: string := "General"
  const LowStockThreshold: int := 5
  const InitialReason: string := "Initial Stock / New Item"
  const RestockReason: string := "เติมของเพิ่ม"
  const UseReason: string := "ใช้งานทั่วไป"
  const HistoryLimit: nat := 20

  /** A string body field falls back to `default` when missing or empty */
  function OrDefault(s: string, default: string): (r: string)
    ensures s != "" ==> r == s
    ensures s == "" ==> r == default
    ensures r == "" ==> default == ""
  {
    if s == "" then default else s
  }

  // ----- creating an item -----

  datatype Costing = Costing(perUnit: real, total: real)

  /**
   * The unit cost and the purchase total of a new item. A truthy `cost` is
   * the total, divided over the quantity (0 per unit when there is none to
   * divide over); otherwise a truthy `costPerUnit` is the unit cost,
   * multiplied up; otherwise both are 0. Either way, for a positive
   * quantity, unit cost times quantity is the total. A total that does not
   * read as a number is NaN: divided over a positive quantity it gives a
   * NaN unit cost, which the item row cannot hold, so the unit of work
   * fails; over no quantity the unit cost is 0 and, NaN not being positive,
   * no purchase is posted (`total` is then 0). A unit cost that does not
   * read as a number fails the same way.
   */
  function InitialCosting(qty: real, cost: Field, costPerUnit: Field): (r: Result<Costing>)
    ensures r.Err? <==> (Truthy(cost) && NumberOf(cost).None? && qty > 0.0)
                        || (!Truthy(cost) && Truthy(costPerUnit) && NumberOf(costPerUnit).None?)
    ensures r.Err? ==> r.error == InvalidAmount
    ensures r.Ok? && qty > 0.0 ==> r.value.perUnit * qty == r.value.total
    ensures Truthy(cost) && NumberOf(cost).Some? ==> r.Ok? && r.value.total == NumberOf(cost).value
    ensures Truthy(cost) && qty <= 0.0 ==> r.Ok? && r.value.perUnit == 0.0
    ensures Truthy(cost) && NumberOf(cost).None? && qty <= 0.0 ==> r == Ok(Costing(0.0, 0.0))
    ensures !Truthy(cost) && Truthy(costPerUnit) && NumberOf(costPerUnit).Some? ==>
              r.Ok? && r.value.perUnit == NumberOf(costPerUnit).value
              && r.value.total == qty * NumberOf(costPerUnit).value
    ensures !Truthy(cost) && !Truthy(costPerUnit) ==> r == Ok(Costing(0.0, 0.0))
  {
    if Truthy(cost) then
      var total := NumberOf(cost);
      if total.Some? then Ok(Costing(if qty > 0.0 then total.value / qty else 0.0, total.value))
      else if qty > 0.0 then Err(InvalidAmount)
      else Ok(Costing(0.0, 0.0))
    else if Truthy(costPerUnit) then
      var unitCost := NumberOf(costPerUnit);
      if unitCost.Some? then Ok(Costing(unitCost.value, qty * unitCost.value))
      else Err(InvalidAmount)
    else
      Ok(Costing(0.0, 0.0))
  }

  /**
   * A zero total sent as the text "0" (a multipart form) is truthy: it is
   * taken as the total, so the unit cost sent beside it is ignored and the
   * item costs nothing. Sent as the number 0 it is false, and the unit cost
   * is used.
   */
  lemma ZeroCostForms(qty: real, unitCost: real)
    requires unitCost != 0.0
    ensures InitialCosting(qty, Text("0", Some(0.0)), Number(unitCost)) == Ok(Costing(0.0, 0.0))
    ensures var c := InitialCosting(qty, Number(0.0), Number(unitCost));
            c.Ok? && c.value.perUnit == unitCost && c.value.total == qty * unitCost
  {
    if qty > 0.0 {
      assert 0.0 / qty == 0.0;
    }
  }

  function NewItem(id: nat, name: string, category: string, qty: real, unit: string,
                   c: Costing, now: Instant): (item: StockItem)
    ensures item.id == id && item.quantity == qty && item.costPerUnit == c.perUnit
    ensures item.name == name && item.unit == unit && item.createdAt == now
    ensures item.category == OrDefault(category, DefaultCategory)
    ensures item.lowStockThreshold == LowStockThreshold && item.supplier == None
  {
    StockItem(id, name, OrDefault(category, DefaultCategory), qty, unit, c.perUnit,
              LowStockThreshold, None, now)
  }

  /** The RESTOCK log of a new item: its whole quantity at its unit cost */
  function InitialLog(item: StockItem, now: Instant): (l: StockLog)
    ensures l.stockItemId == item.id && l.kind == Restock && l.reason == InitialReason
    ensures l.amount == item.quantity && l.costAtTime == item.costPerUnit && l.createdAt == now
  {
    StockLog(item.id, Restock, item.quantity, item.costPerUnit, InitialReason, now)
  }

  /** The purchase a new item posts: one expense of its total, only when that is positive */
  function CreationPurchase(name: string, total: real, now: Instant): (r: seq<Transaction>)
    ensures |r| <= 1
    ensures |r| == 1 <==> total > 0.0
    ensures forall t :: t in r ==> IsPurchase(t) && t.amount == total && t.orderId == None
  {
    if total > 0.0 then [Transaction(Expense, total, PurchaseCategory, NewItemPurchase(name), None, now)]
    else []
  }

  // ----- restocking -----

  datatype Restocked = Restocked(quantity: real, costPerUnit: real)

  /**
   * The weighted-average rule: the new unit cost is the total value after
   * the batch over the total quantity, or 0 when that quantity is not
   * positive. So a restock conserves value whenever stock remains.
   */
  function WeightedAverage(oldQty: real, oldCost: real, added: real, batchCost: real): (r: Restocked)
    ensures r.quantity == oldQty + added
    ensures r.quantity > 0.0 ==> r.costPerUnit * r.quantity == oldQty * oldCost + batchCost
    ensures r.quantity <= 0.0 ==> r.costPerUnit == 0.0
  {
    var qty := oldQty + added;
    Restocked(qty, if qty > 0.0 then (oldQty * oldCost + batchCost) / qty else 0.0)
  }

  /** The item after a restock; the supplier is replaced only by a non-empty one */
  function AfterRestock(item: StockItem, added: real, batchCost: real, supplier: string): (r: StockItem)
    ensures r.id == item.id && r.name == item.name && r.unit == item.unit && r.createdAt == item.createdAt
    ensures r.quantity == item.quantity + added
    ensures r.quantity > 0.0 ==> Value(r) == Value(item) + batchCost
    ensures r.supplier == if supplier == "" then item.supplier else Some(supplier)
    ensures r.quantity <= 0.0 ==> r.costPerUnit == 0.0
    ensures r == item.(quantity := r.quantity, costPerUnit := r.costPerUnit, supplier := r.supplier)
  {
    var w := WeightedAverage(item.quantity, item.costPerUnit, added, batchCost);
    item.(quantity := w.quantity, costPerUnit := w.costPerUnit,
          supplier := if supplier == "" then item.supplier else Some(supplier))
  }

  /** The RESTOCK log of a restock: the amount added, at the item's new unit cost */
  function RestockLog(item: StockItem, added: real, newCost: real, now: Instant): (l: StockLog)
    ensures l.stockItemId == item.id && l.kind == Restock && l.reason == RestockReason
    ensures l.amount == added && l.costAtTime == newCost && l.createdAt == now
  {
    StockLog(item.id, Restock, added, newCost, RestockReason, now)
  }

  function RestockEntry(item: StockItem, added: real, batchCost: real, now: Instant): (t: Transaction)
    ensures IsPurchase(t) && t.amount == batchCost && t.orderId == None
  {
    Transaction(Expense, batchCost, PurchaseCategory, RestockPurchase(item.name, added, item.unit), None, now)
  }

  /**
   * Two restocks give the same quantity and unit cost in either order, as
   * long as stock remains after every step: the rule works on total value,
   * so no drift depends on the order of the batches.
   */
  lemma RestocksCommute(q: real, c: real, a1: real, b1: real, a2: real, b2: real)
    requires q + a1 > 0.0 && q + a2 > 0.0 && q + a1 + a2 > 0.0
    ensures var x := WeightedAverage(q, c, a1, b1);
            var y := WeightedAverage(q, c, a2, b2);
            WeightedAverage(x.quantity, x.costPerUnit, a2, b2)
              == WeightedAverage(y.quantity, y.costPerUnit, a1, b1)
  {
    var x := WeightedAverage(q, c, a1, b1);
    var y := WeightedAverage(q, c, a2, b2);
    var xy := WeightedAverage(x.quantity, x.costPerUnit, a2, b2);
    var yx := WeightedAverage(y.quantity, y.costPerUnit, a1, b1);
    assert xy.quantity == yx.quantity;
    assert xy.costPerUnit * xy.quantity == q * c + b1 + b2;
    assert yx.costPerUnit * yx.quantity == q * c + b1 + b2;
    QuotientUnique(xy.costPerUnit, yx.costPerUnit, xy.quantity);
  }

  lemma QuotientUnique(u: real, v: real, d: real)
    requires d > 0.0 && u * d == v * d
    ensures u == v
  {
    assert (u - v) * d == 0.0;
  }

  /**
   * With stock on hand and a positive batch, the blended unit cost lies
   * between the old unit cost and the batch's own unit cost.
   */
  lemma RestockBlends(q: real, c: real, a: real, b: real)
    requires q > 0.0 && a > 0.0
    ensures var r := WeightedAverage(q, c, a, b);
            var batchUnit := b / a;
            (c <= batchUnit ==> c <= r.costPerUnit <= batchUnit)
            && (batchUnit <= c ==> batchUnit <= r.costPerUnit <= c)
  {
    var r := WeightedAverage(q, c, a, b);
    var u := b / a;
    assert b == u * a;
    assert r.costPerUnit * (q + a) == q * c + u * a;
    if c <= u {
      assert c * (q + a) <= q * c + u * a;
      assert q * c + u * a <= u * (q + a);
      BoundByProduct(c, r.costPerUnit, q + a);
      BoundByProduct(r.costPerUnit, u, q + a);
    } else {
      assert u * (q + a) <= q * c + u * a;
      assert q * c + u * a <= c * (q + a);
      BoundByProduct(u, r.costPerUnit, q + a);
      BoundByProduct(r.costPerUnit, c, q + a);
    }
  }

  lemma BoundByProduct(u: real, v: real, d: real)
    requires d > 0.0 && u * d <= v * d
    ensures u <= v
  {
    assert (v - u) * d >= 0.0;
  }

  /** 100 units bought for 1000 (10 each), then 50 more for 600: the blended cost is 1600/150 */
  lemma RestockScenario()
    ensures var created := InitialCosting(100.0, Number(1000.0), Absent);
            created.Ok? && created.value.perUnit == 10.0
            && var r := WeightedAverage(100.0, created.value.perUnit, 50.0, 600.0);
            r.quantity == 150.0 && r.costPerUnit == 1600.0 / 150.0
            && 10.66 < r.costPerUnit < 10.67
  {
  }

  // ----- using and removing -----

  /** The item after a deduction: only the quantity changes, the unit cost stays */
  function AfterUse(item: StockItem, used: real): (r: StockItem)
    ensures r.quantity == item.quantity - used
    ensures r.costPerUnit == item.costPerUnit
    ensures r.(quantity := item.quantity) == item
  {
    item.(quantity := item.quantity - used)
  }

  /** The log of a deduction: the amount negated, at the current unit cost, USE unless told otherwise */
  function UseLog(item: StockItem, used: real, reason: string, kind: Option<LogType>, now: Instant): (l: StockLog)
    ensures l.amount == -used && l.costAtTime == item.costPerUnit && l.stockItemId == item.id
    ensures l.kind == if kind.Some? then kind.value else Use
    ensures l.reason == OrDefault(reason, UseReason) && l.createdAt == now
  {
    StockLog(item.id, if kind.Some? then kind.value else Use, -used, item.costPerUnit,
             OrDefault(reason, UseReason), now)
  }

  /** A deduction within the quantity on hand leaves it non-negative */
  lemma UseKeepsNonNegative(item: StockItem, used: real)
    requires used <= item.quantity
    ensures AfterUse(item, used).quantity >= 0.0
  {
  }

  /** The entry a deletion posts: minus the item's value, only when that value is positive */
  function RemovalAdjustment(item: StockItem, now: Instant): (r: seq<Transaction>)
    ensures |r| <= 1
    ensures |r| == 1 <==> Value(item) > 0.0
    ensures forall t :: t in r ==>
              t.kind == Expense && t.category == AdjustmentCategory && t.amount == -Value(item) && t.amount < 0.0
              && t.orderId == None
  {
    var v := Value(item);
    if v > 0.0 then [Transaction(Expense, -v, AdjustmentCategory, ItemRemoved(item.name), None, now)]
    else []
  }

  // ----- queries -----

  datatype StockView = StockView(item: StockItem, totalValue: real)

  /** Each item with its value, in the order given */
  function StockValues(items: seq<StockItem>): (r: seq<StockView>)
    ensures |r| == |items|
    ensures forall i :: 0 <= i < |items| ==> r[i].item == items[i] && r[i].totalValue == Value(items[i])
  {
    if items == [] then [] else [StockView(items[0], Value(items[0]))] + StockValues(items[1..])
  }

  function SumValues(views: seq<StockView>): real {
    if views == [] then 0.0 else views[0].totalValue + SumValues(views[1..])
  }

  /** The shop's whole stock value: the sum of item values */
  function GrandTotal(items: seq<StockItem>): (total: real)
    ensures (forall i :: 0 <= i < |items| ==> Value(items[i]) >= 0.0) ==> total >= 0.0
  {
    GrandTotalNonNegative(items);
    SumValues(StockValues(items))
  }

  lemma {:induction false} GrandTotalNonNegative(items: seq<StockItem>)
    ensures (forall i :: 0 <= i < |items| ==> Value(items[i]) >= 0.0) ==> SumValues(StockValues(items)) >= 0.0
  {
    if items != [] {
      GrandTotalNonNegative(items[1..]);
      assert StockValues(items)[1..] == StockValues(items[1..]);
    }
  }

  /** The sum of the positive item values only */
  function PositiveValue(items: seq<StockItem>): real {
    if items == [] then 0.0
    else (if Value(items[0]) > 0.0 then Value(items[0]) else 0.0) + PositiveValue(items[1..])
  }

  /** When no item has a negative value, the grand total is the sum of the positive values */
  lemma {:induction false} GrandTotalIsPositiveValue(items: seq<StockItem>)
    requires forall i :: 0 <= i < |items| ==> Value(items[i]) >= 0.0
    ensures GrandTotal(items) == PositiveValue(items)
  {
    if items != [] {
      GrandTotalIsPositiveValue(items[1..]);
      assert StockValues(items)[1..] == StockValues(items[1..]);
    }
  }

  function LoggedAt(l: StockLog): Instant { l.createdAt }

  /** The logs of one item, in log order */
  function LogsOf(logs: seq<StockLog>, id: nat): (r: seq<StockLog>)
    ensures forall l :: l in r <==> l in logs && l.stockItemId == id
    ensures |r| <= |logs|
  {
    if logs == [] then []
    else (if logs[0].stockItemId == id then [logs[0]] else []) + LogsOf(logs[1..], id)
  }

  /** An item's logs are all of the logs of that item, each as often as the log holds it */
  lemma {:induction false} LogsOfCounts(logs: seq<StockLog>, id: nat)
    ensures forall l :: multiset(LogsOf(logs, id))[l] == if l.stockItemId == id then multiset(logs)[l] else 0
  {
    if logs != [] {
      LogsOfCounts(logs[1..], id);
      assert logs == [logs[0]] + logs[1..];
    }
  }

  /**
   * The history of an item: at most 20 of its logs, newest first; all of
   * them when it has no more than 20, and otherwise every copy of each log
   * later than the oldest one shown.
   */
  function StockHistory(logs: seq<StockLog>, id: nat): (r: seq<StockLog>)
    ensures |r| == Min(HistoryLimit, |LogsOf(logs, id)|)
    ensures NewestFirst(r, LoggedAt)
    ensures multiset(r) <= multiset(LogsOf(logs, id))
    ensures forall l :: l in r ==> l in logs && l.stockItemId == id
    ensures |LogsOf(logs, id)| <= HistoryLimit ==> multiset(r) == multiset(LogsOf(logs, id))
    ensures r != [] ==> forall l :: l in logs && l.stockItemId == id && !AtOrBefore(LoggedAt(l), LoggedAt(r[|r| - 1])) ==>
                          multiset(r)[l] == multiset(logs)[l]
  {
    var mine := LogsOf(logs, id);
    LogsOfCounts(logs, id);
    var r := TakeNewest(mine, HistoryLimit, LoggedAt);
    assert forall l :: l in r ==> l in multiset(mine);
    assert r != [] ==> forall l :: l in logs && l.stockItemId == id && !AtOrBefore(LoggedAt(l), LoggedAt(r[|r| - 1])) ==>
                         l in mine && multiset(r)[l] == multiset(mine)[l];
    r
  }
}
