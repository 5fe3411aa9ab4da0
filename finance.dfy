/**
 * The ledger reporting and repair logic (backend/src/controllers/transactionController.ts):
 * the date window of a report, the profit split, the income and expense
 * totals, the validation of a manual entry, and the full data sync that
 * back-fills income and rebuilds the stock-purchase expenses.
 */
module Finance {
  import opened Time
  import opened Records
  import opened Timeline
  import opened OrderLifecycle
  import opened StockLedger

  // ----- date window -----

  /** The report's query parameters; `None` stands for a missing or empty parameter */
  datatype ReportQuery = ReportQuery(
    startDate: Option<Instant>,
    endDate: Option<Instant>,
    month: Option<int>,
    year: Option<int>)

  datatype DateFilter = Unfiltered | Between(from: Instant, to: Instant)

  /** Whether an entry dated `t` passes the filter; both bounds are inclusive */
  predicate Matches(f: DateFilter, t: Instant) {
    match f
    case Unfiltered => true
    case Between(from, to) => AtOrBefore(from, t) && AtOrBefore(t, to)
  }

  /** A year above 2400 is read as a Buddhist-era year and moved back 543 years */
  function NormalizeEra(y: int): (r: int)
    ensures r <= y
    ensures r == y <==> y <= 2400
    ensures y > 2400 ==> r > 1857
  {
    if y > 2400 then y - 543 else y
  }

  /** The Buddhist-era number of a Gregorian year from 1858 on normalises back to that year */
  lemma BuddhistEraRoundTrip(g: int)
    requires 1858 <= g
    ensures NormalizeEra(g + 543) == g
    ensures g <= 2400 ==> NormalizeEra(g) == g
  {
  }

  /** The calendar month `new Date(y, month - 1, 1)` falls in, `y` the normalised year */
  function ReportMonth(year: int, month: int): (ym: (int, int))
    ensures 1 <= ym.1 <= 12
  {
    RolledMonth(NormalizeEra(year), month - 1)
  }

  /** The calendar year `new Date(y, 0, 1)` falls in, `y` the normalised year */
  function ReportYear(year: int): int {
    ConstructorYear(NormalizeEra(year))
  }

  /**
   * From day 1 of the month at 00:00:00 to its last day at 23:59:59
   * (`new Date(y, month, 0, 23, 59, 59)` is the last day of the month before
   * month index `month`, that is of the same month as the start).
   */
  function MonthWindow(year: int, month: int): DateFilter {
    var ym := ReportMonth(year, month);
    Between(MonthStart(ym.0, ym.1), MonthEnd(ym.0, ym.1))
  }

  /** From January 1 at 00:00:00 to December 31 at 23:59:59 */
  function YearWindow(year: int): DateFilter {
    var y := ReportYear(year);
    Between(Instant(y, 1, 1, 0), Instant(y, 12, 31, LastSecond))
  }

  /** Start and end dates first, then month and year, then year alone, else no filter */
  function BuildDateFilter(q: ReportQuery): (r: DateFilter)
    ensures r.Unfiltered? <==> !(q.startDate.Some? && q.endDate.Some?) && q.year.None?
  {
    if q.startDate.Some? && q.endDate.Some? then Between(q.startDate.value, q.endDate.value)
    else if q.month.Some? && q.year.Some? then MonthWindow(q.year.value, q.month.value)
    else if q.year.Some? then YearWindow(q.year.value)
    else Unfiltered
  }

  /** An explicit start and end select the entries dated between them, inclusive, whatever else is given */
  lemma RangeTakesPrecedence(q: ReportQuery, t: Instant)
    requires q.startDate.Some? && q.endDate.Some?
    ensures Matches(BuildDateFilter(q), t) <==> AtOrBefore(q.startDate.value, t) && AtOrBefore(t, q.endDate.value)
  {
  }

  /**
   * Without a full date range, a month and year select exactly the entries
   * dated in that calendar month (after the era and rollover rules).
   */
  lemma MonthFilterSelectsMonth(q: ReportQuery, t: Instant)
    requires !(q.startDate.Some? && q.endDate.Some?) && q.month.Some? && q.year.Some?
    requires WellFormed(t)
    ensures Matches(BuildDateFilter(q), t) <==> (t.year, t.month) == ReportMonth(q.year.value, q.month.value)
  {
    var ym := ReportMonth(q.year.value, q.month.value);
    InMonth(t, ym.0, ym.1);
  }

  /** A year alone selects exactly the entries dated in that calendar year */
  lemma YearFilterSelectsYear(q: ReportQuery, t: Instant)
    requires !(q.startDate.Some? && q.endDate.Some?) && q.month.None? && q.year.Some?
    requires WellFormed(t)
    ensures Matches(BuildDateFilter(q), t) <==> t.year == ReportYear(q.year.value)
  {
    InYear(t, ReportYear(q.year.value));
  }

  /** A query with neither a date range nor a year selects everything */
  lemma NoYearNoFilter(q: ReportQuery, t: Instant)
    requires !(q.startDate.Some? && q.endDate.Some?) && q.year.None?
    ensures Matches(BuildDateFilter(q), t)
  {
  }

  /** A Buddhist-era year selects the same window as its Gregorian year */
  lemma EraYearsSelectAlike(q: ReportQuery, g: int)
    requires 1858 <= g <= 2400 && q.year == Some(g)
    ensures BuildDateFilter(q.(year := Some(g + 543))) == BuildDateFilter(q)
  {
  }

  /** A month number outside 1..12 rolls over: month 13 of a year is January of the next */
  lemma MonthRollsOver(year: int)
    requires 100 <= year <= 2400
    ensures ReportMonth(year, 13) == (year + 1, 1) && ReportMonth(year, 0) == (year - 1, 12)
  {
  }

  function TxAt(t: Transaction): Instant { t.createdAt }

  /** The entries of the ledger the filter passes, in ledger order */
  function Select(ledger: seq<Transaction>, f: DateFilter): (r: seq<Transaction>)
    ensures forall t :: t in r <==> t in ledger && Matches(f, t.createdAt)
    ensures |r| <= |ledger|
  {
    if ledger == [] then []
    else (if Matches(f, ledger[0].createdAt) then [ledger[0]] else []) + Select(ledger[1..], f)
  }

  /** The filter keeps every matching entry as often as the ledger holds it, and no other */
  lemma {:induction false} SelectCounts(ledger: seq<Transaction>, f: DateFilter)
    ensures forall t :: multiset(Select(ledger, f))[t]
                        == if Matches(f, t.createdAt) then multiset(ledger)[t] else 0
  {
    if ledger != [] {
      SelectCounts(ledger[1..], f);
      assert ledger == [ledger[0]] + ledger[1..];
    }
  }

  // ----- profit distribution -----

  datatype Shares = Shares(teen50: real, pond25: real, beam25: real)

  datatype Distribution = Distribution(retainedEarnings: real, dividendPool: real, shares: Shares)

  /**
   * No distribution without profit. Otherwise half is retained and half is
   * the dividend pool, which is split 50/25/25.
   */
  function CalculateDistribution(netProfit: real): (r: Option<Distribution>)
    ensures r.None? <==> netProfit <= 0.0
    ensures r.Some? ==> r.value.retainedEarnings + r.value.dividendPool == netProfit
    ensures r.Some? ==> r.value.retainedEarnings == r.value.dividendPool
    ensures r.Some? ==> var s := r.value.shares;
                        s.teen50 + s.pond25 + s.beam25 == r.value.dividendPool
                        && s.teen50 == s.pond25 + s.beam25 && s.pond25 == s.beam25 && s.beam25 > 0.0
  {
    if netProfit <= 0.0 then None
    else
      var toCapital := netProfit * 0.50;
      var toShareholders := netProfit * 0.50;
      Some(Distribution(toCapital, toShareholders,
                        Shares(toShareholders * 0.50, toShareholders * 0.25, toShareholders * 0.25)))
  }

  // ----- totals -----

  /** The sum of the amounts of the entries of one kind */
  function TotalOf(s: seq<Transaction>, kind: TxType): (r: real)
    ensures (forall i :: 0 <= i < |s| ==> s[i].kind != kind) ==> r == 0.0
  {
    if s == [] then 0.0
    else (if s[0].kind == kind then s[0].amount else 0.0) + TotalOf(s[1..], kind)
  }

  lemma {:induction false} TotalOfAppend(a: seq<Transaction>, b: seq<Transaction>, kind: TxType)
    ensures TotalOf(a + b, kind) == TotalOf(a, kind) + TotalOf(b, kind)
  {
    if a == [] {
      assert a + b == b;
    } else {
      assert (a + b)[0] == a[0];
      assert (a + b)[1..] == a[1..] + b;
      TotalOfAppend(a[1..], b, kind);
    }
  }

  /** Removing the entry at `k` takes its own contribution off the total */
  lemma TotalOfRemove(t: seq<Transaction>, k: nat, kind: TxType)
    requires k < |t|
    ensures TotalOf(t, kind)
            == (if t[k].kind == kind then t[k].amount else 0.0) + TotalOf(t[..k] + t[k + 1..], kind)
  {
    assert t == t[..k] + ([t[k]] + t[k + 1..]);
    TotalOfAppend(t[..k], [t[k]] + t[k + 1..], kind);
    TotalOfAppend(t[..k], t[k + 1..], kind);
    assert ([t[k]] + t[k + 1..])[1..] == t[k + 1..];
  }

  lemma MultisetRemove(t: seq<Transaction>, k: nat)
    requires k < |t|
    ensures multiset(t[..k] + t[k + 1..]) == multiset(t) - multiset{t[k]}
  {
    assert t == t[..k] + [t[k]] + t[k + 1..];
  }

  /** Finds the first entry of `s` in `t`; the rest of `s` is a permutation of the rest of `t` */
  lemma MatchHead(s: seq<Transaction>, t: seq<Transaction>) returns (k: nat)
    requires multiset(s) == multiset(t) && s != []
    ensures k < |t| && t[k] == s[0] && multiset(s[1..]) == multiset(t[..k] + t[k + 1..])
  {
    assert s[0] in multiset(t) by {
      assert s[0] in multiset(s);
    }
    k :| 0 <= k < |t| && t[k] == s[0];
    MultisetRemove(t, k);
    MultisetTail(s);
  }

  lemma MultisetTail(s: seq<Transaction>)
    requires s != []
    ensures multiset(s[1..]) == multiset(s) - multiset{s[0]}
  {
    assert s == [s[0]] + s[1..];
  }

  /** Totals do not depend on the order of the entries */
  lemma {:induction false} TotalOfPermutation(s: seq<Transaction>, t: seq<Transaction>, kind: TxType)
    requires multiset(s) == multiset(t)
    ensures TotalOf(s, kind) == TotalOf(t, kind)
  {
    if s == [] {
      assert |t| == |multiset(t)| == 0;
    } else {
      var k := MatchHead(s, t);
      TotalOfPermutation(s[1..], t[..k] + t[k + 1..], kind);
      TotalOfRemove(t, k, kind);
    }
  }

  /** The expense total of the PDF export, which counts every entry that is not income */
  function NonIncomeTotal(s: seq<Transaction>): real {
    if s == [] then 0.0
    else (if s[0].kind != Income then s[0].amount else 0.0) + NonIncomeTotal(s[1..])
  }

  /** With only income and expense entries, the PDF export's expense total is the report's */
  lemma {:induction false} PdfFoldAgrees(s: seq<Transaction>)
    ensures NonIncomeTotal(s) == TotalOf(s, Expense)
  {
    if s != [] {
      PdfFoldAgrees(s[1..]);
    }
  }
  datatype Summary = Summary(totalIncome: real, totalExpense: real, netProfit: real,
                             distribution: Option<Distribution>)

  datatype Report = Report(summary: Summary, history: seq<Transaction>)

  /**
   * The financial report: the entries of the window newest first, the sum
   * of the income amounts and of the expense amounts among them, net profit
   * as their difference, and the profit split of that net profit.
   */
  method FinancialReport(ledger: seq<Transaction>, q: ReportQuery) returns (r: Report)
    ensures var selected := Select(ledger, BuildDateFilter(q));
            NewestFirst(r.history, TxAt) && multiset(r.history) == multiset(selected)
            && r.summary.totalIncome == TotalOf(selected, Income)
            && r.summary.totalExpense == TotalOf(selected, Expense)
    ensures r.summary.netProfit == r.summary.totalIncome - r.summary.totalExpense
    ensures r.summary.distribution == CalculateDistribution(r.summary.netProfit)
  {
    var selected := Select(ledger, BuildDateFilter(q));
    var history := SortNewest(selected, TxAt);
    var totalIncome, totalExpense := 0.0, 0.0;
    var i := 0;
    while i < |history|
      invariant 0 <= i <= |history|
      invariant totalIncome == TotalOf(history[..i], Income)
      invariant totalExpense == TotalOf(history[..i], Expense)
    {
      var t := history[i];
      match t.kind {
        case Income => totalIncome := totalIncome + t.amount;
        case Expense => totalExpense := totalExpense + t.amount;
      }
      assert history[..i + 1] == history[..i] + [t];
      TotalOfAppend(history[..i], [t], Income);
      TotalOfAppend(history[..i], [t], Expense);
      i := i + 1;
    }
    assert history[..i] == history;
    TotalOfPermutation(history, selected, Income);
    TotalOfPermutation(history, selected, Expense);
    var netProfit := totalIncome - totalExpense;
    r := Report(Summary(totalIncome, totalExpense, netProfit, CalculateDistribution(netProfit)), history);
  }

  // ----- manual entries -----

  /**
   * A manual entry needs a truthy amount that reads as a number; any sign
   * is accepted, and so is zero when it is sent as a text.
   */
  function ManualEntry(kind: TxType, amount: Field, category: string, description: string,
                       now: Instant): (r: Result<Transaction>)
    ensures r.Err? <==> !Truthy(amount) || NumberOf(amount).None?
    ensures r.Err? ==> r.error == InvalidAmount
    ensures r.Ok? ==> r.value.kind == kind && Some(r.value.amount) == NumberOf(amount)
    ensures r.Ok? ==> r.value.category == category && r.value.description == Manual(description)
    ensures r.Ok? ==> r.value.orderId == None && r.value.createdAt == now
  {
    if !Truthy(amount) then Err(InvalidAmount)
    else match NumberOf(amount)
      case None => Err(InvalidAmount)
      case Some(value) => Ok(Transaction(kind, value, category, Manual(description), None, now))
  }

  /**
   * A zero amount sent as the number 0 is refused, while the text "0" is
   * truthy and reads as a number, so it is posted as an entry of 0; a
   * negative amount is posted as it is.
   */
  lemma ZeroAmountForms(kind: TxType, category: string, description: string, now: Instant, x: real)
    requires x < 0.0
    ensures ManualEntry(kind, Number(0.0), category, description, now) == Err(InvalidAmount)
    ensures var e := ManualEntry(kind, Text("0", Some(0.0)), category, description, now);
            e.Ok? && e.value.amount == 0.0
    ensures var e := ManualEntry(kind, Number(x), category, description, now);
            e.Ok? && e.value.amount == x
  {
  }

  // ----- full data sync -----

  /** The entries the expense rebuild leaves alone: everything but stock purchases */
  function Keep(ledger: seq<Transaction>): (r: seq<Transaction>)
    ensures |r| <= |ledger|
  {
    if ledger == [] then []
    else (if IsPurchase(ledger[0]) then [] else [ledger[0]]) + Keep(ledger[1..])
  }

  /** The stock purchases of the ledger, in ledger order */
  function Purchases(ledger: seq<Transaction>): (r: seq<Transaction>)
    ensures |r| + |Keep(ledger)| == |ledger|
  {
    if ledger == [] then []
    else (if IsPurchase(ledger[0]) then [ledger[0]] else []) + Purchases(ledger[1..])
  }

  /** The kept entries are exactly the ledger's entries that are not stock purchases */
  lemma {:induction false} KeepMembers(ledger: seq<Transaction>)
    ensures forall t :: t in Keep(ledger) <==> t in ledger && !IsPurchase(t)
  {
    if ledger != [] {
      KeepMembers(ledger[1..]);
      assert ledger == [ledger[0]] + ledger[1..];
    }
  }

  /** The purchases are exactly the ledger's entries that are stock purchases */
  lemma {:induction false} PurchasesMembers(ledger: seq<Transaction>)
    ensures forall t :: t in Purchases(ledger) <==> t in ledger && IsPurchase(t)
  {
    if ledger != [] {
      PurchasesMembers(ledger[1..]);
      assert ledger == [ledger[0]] + ledger[1..];
    }
  }

  /** The purchase the rebuild derives from an item: its value, dated at the item's creation */
  function RebuiltEntry(item: StockItem): (t: Transaction)
    ensures IsPurchase(t) && t.amount == Value(item) && t.createdAt == item.createdAt && t.orderId == None
  {
    Transaction(Expense, Value(item), PurchaseCategory, SyncedPurchase(item.name), None, item.createdAt)
  }

  /** One purchase per item of positive value, in item order: see `RebuiltMembers` */
  function RebuiltPurchases(items: seq<StockItem>): (r: seq<Transaction>)
    ensures |r| <= |items|
    ensures forall t :: t in r ==> IsPurchase(t) && t.amount > 0.0 && t.orderId == None
  {
    if items == [] then []
    else (if Value(items[0]) > 0.0 then [RebuiltEntry(items[0])] else []) + RebuiltPurchases(items[1..])
  }

  /** The rebuilt purchases are exactly those of the items of positive value */
  lemma {:induction false} RebuiltMembers(items: seq<StockItem>)
    ensures forall t :: t in RebuiltPurchases(items) ==>
              exists item :: item in items && Value(item) > 0.0 && t == RebuiltEntry(item)
    ensures forall item :: item in items && Value(item) > 0.0 ==> RebuiltEntry(item) in RebuiltPurchases(items)
  {
    if items != [] {
      RebuiltMembers(items[1..]);
      assert forall item :: item in items <==> item == items[0] || item in items[1..];
    }
  }

  /** Rebuilding from one more item appends its purchase exactly when its value is positive */
  lemma {:induction false} RebuiltSnoc(items: seq<StockItem>, item: StockItem)
    ensures RebuiltPurchases(items + [item])
            == RebuiltPurchases(items) + (if Value(item) > 0.0 then [RebuiltEntry(item)] else [])
  {
    if items == [] {
      assert items + [item] == [item];
      assert [item][1..] == [];
    } else {
      assert (items + [item])[0] == items[0];
      assert (items + [item])[1..] == items[1..] + [item];
      RebuiltSnoc(items[1..], item);
    }
  }

  /**
   * `syncAllData`: back-fill an income entry for each completed order with
   * no linked income, then delete every stock purchase and re-create one
   * per item of positive value.
   */
  function SyncAll(ledger: seq<Transaction>, os: seq<Order>, items: seq<StockItem>): (r: seq<Transaction>)
    ensures |r| <= |ledger| + |os| + |items|
  {
    BackfillSize(os, IncomeOrderIds(ledger), true);
    Keep(ledger + Backfill(os, IncomeOrderIds(ledger), true)) + RebuiltPurchases(items)
  }

  lemma {:induction false} KeepAppend(a: seq<Transaction>, b: seq<Transaction>)
    ensures Keep(a + b) == Keep(a) + Keep(b)
  {
    if a == [] {
      assert a + b == b;
    } else {
      assert (a + b)[0] == a[0];
      assert (a + b)[1..] == a[1..] + b;
      KeepAppend(a[1..], b);
    }
  }

  lemma {:induction false} PurchasesAppend(a: seq<Transaction>, b: seq<Transaction>)
    ensures Purchases(a + b) == Purchases(a) + Purchases(b)
  {
    if a == [] {
      assert a + b == b;
    } else {
      var head := if IsPurchase(a[0]) then [a[0]] else [];
      assert (a + b)[0] == a[0];
      assert (a + b)[1..] == a[1..] + b;
      assert Purchases(a + b) == head + Purchases(a[1..] + b);
      PurchasesAppend(a[1..], b);
      assert head + (Purchases(a[1..]) + Purchases(b)) == (head + Purchases(a[1..])) + Purchases(b);
    }
  }


  /** The rebuild's filter deletes no income entry */
  lemma {:induction false} IncomeCountKeep(s: seq<Transaction>, id: nat)
    ensures IncomeCount(Keep(s), id) == IncomeCount(s, id)
  {
    if s != [] {
      var head := if IsPurchase(s[0]) then [] else [s[0]];
      IncomeCountAppend(head, Keep(s[1..]), id);
      IncomeCountKeep(s[1..], id);
      if head != [] {
        assert head[1..] == [];
      }
    }
  }

  /** Filtering a ledger that holds no purchases leaves it as it is */
  lemma {:induction false} KeepWithoutPurchases(s: seq<Transaction>)
    requires forall t :: t in s ==> !IsPurchase(t)
    ensures Keep(s) == s && Purchases(s) == []
  {
    if s != [] {
      assert s[0] in s;
      assert forall t :: t in s[1..] ==> t in s;
      KeepWithoutPurchases(s[1..]);
    }
  }

  /** Filtering a ledger of purchases only leaves nothing to keep */
  lemma {:induction false} KeepOnlyPurchases(s: seq<Transaction>)
    requires forall t :: t in s ==> IsPurchase(t)
    ensures Keep(s) == [] && Purchases(s) == s
  {
    if s != [] {
      assert s[0] in s;
      assert forall t :: t in s[1..] ==> t in s;
      KeepOnlyPurchases(s[1..]);
    }
  }

  /** Back-filled entries are income, so the rebuild never deletes them */
  lemma BackfillIsNotPurchase(os: seq<Order>, linked: set<nat>, forced: bool)
    ensures forall t :: t in Backfill(os, linked, forced) ==> !IsPurchase(t)
  {
    BackfillMembers(os, linked, forced);
  }

  /** After a full sync the stock purchases are exactly the rebuilt ones */
  lemma SyncAllPurchases(ledger: seq<Transaction>, os: seq<Order>, items: seq<StockItem>)
    ensures Purchases(SyncAll(ledger, os, items)) == RebuiltPurchases(items)
  {
    var kept := Keep(ledger + Backfill(os, IncomeOrderIds(ledger), true));
    KeepMembers(ledger + Backfill(os, IncomeOrderIds(ledger), true));
    PurchasesAppend(kept, RebuiltPurchases(items));
    KeepWithoutPurchases(kept);
    KeepOnlyPurchases(RebuiltPurchases(items));
  }

  /**
   * After a full sync the other entries are those of before, in order,
   * followed by the back-filled income.
   */
  lemma SyncAllKeepsOthers(ledger: seq<Transaction>, os: seq<Order>, items: seq<StockItem>)
    ensures Keep(SyncAll(ledger, os, items)) == Keep(ledger) + Backfill(os, IncomeOrderIds(ledger), true)
  {
    var b := Backfill(os, IncomeOrderIds(ledger), true);
    var kept := Keep(ledger + b);
    KeepMembers(ledger + b);
    KeepAppend(ledger, b);
    BackfillIsNotPurchase(os, IncomeOrderIds(ledger), true);
    KeepWithoutPurchases(b);
    KeepAppend(kept, RebuiltPurchases(items));
    KeepWithoutPurchases(kept);
    KeepOnlyPurchases(RebuiltPurchases(items));
  }

  /** After a full sync every completed order has a linked income entry, so a second run back-fills none */
  lemma SyncAllSettlesIncome(ledger: seq<Transaction>, os: seq<Order>, items: seq<StockItem>)
    ensures Backfill(os, IncomeOrderIds(SyncAll(ledger, os, items)), true) == []
  {
    var linked := IncomeOrderIds(ledger);
    var b := Backfill(os, linked, true);
    var after := SyncAll(ledger, os, items);
    BackfillIsNotPurchase(os, linked, true);
    BackfillMembers(os, linked, true);
    BackfillMembers(os, IncomeOrderIds(after), true);
    KeepMembers(ledger + b);
    forall o | o in os && o.status == Completed ensures o.id in IncomeOrderIds(after) {
      if o.id in linked {
        var t :| t in ledger && t.kind == Income && t.orderId.Some? && t.orderId.value == o.id;
        assert t in ledger + b;
        assert t in after;
      } else {
        var t := BackfillEntry(o, true);
        assert t in b;
        assert t in ledger + b;
        assert t in after;
      }
    }
  }

  /** The full sync is idempotent: run on its own result it changes nothing */
  lemma SyncAllIdempotent(ledger: seq<Transaction>, os: seq<Order>, items: seq<StockItem>)
    ensures SyncAll(SyncAll(ledger, os, items), os, items) == SyncAll(ledger, os, items)
  {
    var kept := Keep(ledger + Backfill(os, IncomeOrderIds(ledger), true));
    var rebuilt := RebuiltPurchases(items);
    var once := SyncAll(ledger, os, items);
    KeepMembers(ledger + Backfill(os, IncomeOrderIds(ledger), true));
    SyncAllSettlesIncome(ledger, os, items);
    assert once + [] == once;
    KeepAppend(kept, rebuilt);
    KeepWithoutPurchases(kept);
    KeepOnlyPurchases(rebuilt);
    assert Keep(once) == kept;
  }

  /** The rebuilt purchases add up to the positive part of the stock value */
  lemma {:induction false} RebuiltTotal(items: seq<StockItem>)
    ensures TotalOf(RebuiltPurchases(items), Expense) == PositiveValue(items)
  {
    if items != [] {
      var head := if Value(items[0]) > 0.0 then [RebuiltEntry(items[0])] else [];
      RebuiltTotal(items[1..]);
      TotalOfAppend(head, RebuiltPurchases(items[1..]), Expense);
      if head != [] {
        assert head[1..] == [];
      }
    }
  }

  /**
   * After a full sync, with no item of negative value, the stock-purchase
   * expense in the ledger equals the shop's stock grand total.
   */
  lemma SyncedPurchasesMatchStockValue(ledger: seq<Transaction>, os: seq<Order>, items: seq<StockItem>)
    requires forall i :: 0 <= i < |items| ==> Value(items[i]) >= 0.0
    ensures TotalOf(Purchases(SyncAll(ledger, os, items)), Expense) == GrandTotal(items)
  {
    SyncAllPurchases(ledger, os, items);
    RebuiltTotal(items);
    GrandTotalIsPositiveValue(items);
  }
}
