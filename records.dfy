/**
 * The rows of the store: stock items and their movement logs, ledger
 * transactions, orders and their line items, and the request bodies the
 * handlers receive. Amounts and quantities are exact rationals (`real`).
 */
module Records {
  import opened Time

  datatype Option<+T> = None | Some(value: T)

  /** The business errors a handler reports; on any of them nothing is written */
  datatype Error =
    | NotFound            // the referenced stock item or order does not exist
    | InsufficientStock   // a deduction larger than the quantity on hand
    | OrderHandled        // completing a missing or already completed order
    | InvalidAmount       // a manual ledger entry without a usable amount
    | InvalidPage         // a page window the store cannot apply
    | LinkTaken           // a second entry linked to an order that already has one


  datatype Outcome = Pass | Fail(error: Error)

  datatype Result<+T> = Ok(value: T) | Err(error: Error)

  // ----- request fields -----

  /**
   * A numeric field of a request body as a handler receives it: missing, a
   * JSON number, or a text (a multipart form sends every field as text)
   * with the number it reads as, `None` when it does not read as one (NaN).
   */
  datatype Field = Absent | Number(n: real) | Text(s: string, reading: Option<real>)

  /** JavaScript truthiness: the number 0 and the empty text are false, the text "0" is true */
  predicate Truthy(f: Field) {
    match f
    case Absent => false
    case Number(n) => n != 0.0
    case Text(s, _) => s != ""
  }

  /** The number a field reads as (`parseFloat`, `isNaN`); `None` is NaN */
  function NumberOf(f: Field): Option<real> {
    match f
    case Absent => None
    case Number(n) => Some(n)
    case Text(_, reading) => reading
  }

  // ----- stock -----

  datatype LogType = Restock | Use | Waste

  datatype StockItem = StockItem(
    id: nat,
    name: string,
    category: string,
    quantity: real,
    unit: string,
    costPerUnit: real,
    lowStockThreshold: int,
    supplier: Option<string>,
    createdAt: Instant)

  datatype StockLog = StockLog(
    stockItemId: nat,
    kind: LogType,
    amount: real,
    costAtTime: real,
    reason: string,
    createdAt: Instant)

  /** Capital tied up in an item: quantity times unit cost */
  function Value(item: StockItem): real {
    item.quantity * item.costPerUnit
  }

  // ----- ledger -----

  datatype TxType = Income | Expense

  /**
   * The description text each handler writes, kept as the template that
   * produced it and the values filled into it; the rendered text is not
   * part of this model.
   */
  datatype Description =
    | NewItemPurchase(itemName: string)                             // creating a stock item
    | RestockPurchase(itemName: string, added: real, unit: string)  // restocking: name, amount, unit
    | ItemRemoved(itemName: string)                                 // deleting a stock item
    | OrderSale(orderId: nat)                                       // completing an order
    | SyncedSale(orderId: nat)                                      // income back-filled by the order sync
    | ForceSyncedSale(orderId: nat)                                 // income back-filled by the full sync
    | SyncedPurchase(itemName: string)                              // purchase re-created by the full sync
    | Manual(text: string)                                          // a manual entry's own text

  datatype Transaction = Transaction(
    kind: TxType,
    amount: real,
    category: string,
    description: Description,
    orderId: Option<nat>,
    createdAt: Instant)

  const SalesCategory: string := "Sales"
  const PurchaseCategory: string := "Stock Purchase"
  const AdjustmentCategory: string := "Stock Adjustment"

  /** The entries the expense rebuild deletes and re-creates */
  predicate IsPurchase(t: Transaction) {
    t.kind == Expense && t.category == PurchaseCategory
  }

  // ----- orders -----

  datatype OrderStatus = Pending | Completed | Cancelled

  datatype OrderItem = OrderItem(
    productId: int,
    productName: string,
    quantity: int,
    priceAtTime: real)

  datatype Order = Order(
    id: nat,
    customerName: string,
    items: seq<OrderItem>,
    totalAmount: real,
    paymentMethod: string,
    status: OrderStatus,
    discordUserId: Option<string>,
    discordChannelId: Option<string>,
    createdAt: Instant,
    updatedAt: Instant)

  /** One line of the body of `POST /orders` */
  datatype RequestItem = RequestItem(id: int, name: string, quantity: int, price: real)

  /** The body of `POST /orders`; an empty string stands for a missing or empty field */
  datatype OrderRequest = OrderRequest(
    customerName: string,
    items: seq<RequestItem>,
    totalAmount: real,
    paymentMethod: string,
    discordUserId: Option<string>,
    discordChannelId: Option<string>)
}
