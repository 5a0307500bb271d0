/** The rows of the order application: orders, their line items and their
    activity log, with the status choices, the money arithmetic and the
    order-number format. */
module OrderModels {
  import opened Common

  type OrderId = nat

  /** A point in time, in microseconds since the epoch (the resolution of a
      stored date-time). */
  type Timestamp = int

  /** A two-decimal fixed-point amount, held as a whole number of cents. */
  type Cents = int

  /** The seven status choices of an order; no other value can be stored. */
  datatype Status = Pending | Paid | Processing | Shipped | Delivered | Cancelled | Refunded

  /** The value stored in the status column for each choice. */
  function Code(s: Status): string {
    match s
    case Pending => "pending"
    case Paid => "paid"
    case Processing => "processing"
    case Shipped => "shipped"
    case Delivered => "delivered"
    case Cancelled => "cancelled"
    case Refunded => "refunded"
  }

  /** Validation of a requested status against the choice list: the request
      is accepted exactly when it is the code of one of the seven choices. */
  function ParseStatus(code: string): (r: Option<Status>)
    ensures r.Some? ==> Code(r.value) == code
    ensures r.None? ==> forall s: Status :: Code(s) != code
  {
    if code == "pending" then Some(Pending)
    else if code == "paid" then Some(Paid)
    else if code == "processing" then Some(Processing)
    else if code == "shipped" then Some(Shipped)
    else if code == "delivered" then Some(Delivered)
    else if code == "cancelled" then Some(Cancelled)
    else if code == "refunded" then Some(Refunded)
    else None
  }

  /** Every choice survives being stored as its code and validated again. */
  lemma ParseCode(s: Status)
    ensures ParseStatus(Code(s)) == Some(s)
  {
    var r := ParseStatus(Code(s));
    assert r.Some? ==> Code(r.value) == Code(s);
  }

  datatype Order = Order(
    id: OrderId,
    owner: UserId,
    orderNumber: string,
    status: Status,
    receiverName: string,
    receiverPhone: string,
    receiverAddress: string,
    notes: Option<string>,
    totalAmount: Cents,
    discountAmount: Cents,
    shippingFee: Cents,
    finalAmount: Cents,
    createdAt: Timestamp,
    updatedAt: Timestamp,
    paidAt: Option<Timestamp>,
    shippedAt: Option<Timestamp>,
    deliveredAt: Option<Timestamp>)

  /** The amounts of an order agree: final = total + shipping - discount. */
  predicate Balanced(o: Order) {
    o.finalAmount == o.totalAmount + o.shippingFee - o.discountAmount
  }

  /** The receiver details and notes a client supplies when creating an order. */
  datatype Receiver = Receiver(name: string, phone: string, address: string, notes: Option<string>)

  /** A fresh order instance, before its first save: every column not
      supplied takes its declared default. */
  function NewOrder(id: OrderId, owner: UserId, rcv: Receiver, now: Timestamp): (o: Order)
    ensures o.id == id && o.owner == owner && o.orderNumber == []
    ensures o.status == Pending
    ensures o.totalAmount == 0 && o.discountAmount == 0 && o.shippingFee == 0 && o.finalAmount == 0
    ensures Balanced(o)
    ensures o.paidAt.None? && o.shippedAt.None? && o.deliveredAt.None?
    ensures o.receiverName == rcv.name && o.receiverPhone == rcv.phone
    ensures o.receiverAddress == rcv.address && o.notes == rcv.notes
    ensures o.createdAt == now && o.updatedAt == now
  {
    Order(id, owner, [], Pending, rcv.name, rcv.phone, rcv.address, rcv.notes,
          0, 0, 0, 0, now, now, None, None, None)
  }

  /** The decimal digits of `n`, most significant first (no sign, no padding). */
  function Decimal(n: nat): (s: string)
    ensures |s| >= 1
    ensures forall i :: 0 <= i < |s| ==> '0' <= s[i] <= '9'
  {
    if n < 10 then [('0' as int + n) as char]
    else Decimal(n / 10) + [('0' as int + n % 10) as char]
  }

  /** The number a string of decimal digits denotes. */
  function DigitsValue(s: string): nat
    requires forall i :: 0 <= i < |s| ==> '0' <= s[i] <= '9'
  {
    if s == [] then 0
    else DigitsValue(s[..|s| - 1]) * 10 + (s[|s| - 1] as int - '0' as int)
  }

  lemma {:induction false} DecimalRoundTrip(n: nat)
    ensures DigitsValue(Decimal(n)) == n
  {
    var s := Decimal(n);
    if n >= 10 {
      DecimalRoundTrip(n / 10);
      assert s[..|s| - 1] == Decimal(n / 10);
    }
  }

  /** The order number generated from a millisecond clock reading. */
  function OrderNumber(millis: nat): (s: string)
    ensures |s| > 3 && s[..3] == "ORD"
  {
    "ORD" + Decimal(millis)
  }

  /** Distinct clock readings give distinct order numbers. */
  lemma OrderNumberInjective(m1: nat, m2: nat)
    requires OrderNumber(m1) == OrderNumber(m2)
    ensures m1 == m2
  {
    assert OrderNumber(m1)[3..] == Decimal(m1);
    assert OrderNumber(m2)[3..] == Decimal(m2);
    DecimalRoundTrip(m1);
    DecimalRoundTrip(m2);
  }

  /** The order number after a save: an empty one is generated from the clock,
      any other is kept as it is. */
  function AssignedNumber(current: string, millis: nat): (r: string)
    ensures r != []
    ensures current != [] ==> r == current
    ensures current == [] ==> r == OrderNumber(millis)
  {
    if current == [] then OrderNumber(millis) else current
  }

  /** Saving twice assigns nothing new the second time. */
  lemma AssignedNumberStable(current: string, m1: nat, m2: nat)
    ensures AssignedNumber(AssignedNumber(current, m1), m2) == AssignedNumber(current, m1)
  {
  }

  /** One line item as the client submits it; its total is not part of the input. */
  datatype ItemInput = ItemInput(
    productName: string,
    productSku: string,
    productImage: Option<string>,
    quantity: nat,
    unitPrice: Cents)

  datatype OrderItem = OrderItem(
    orderId: OrderId,
    productName: string,
    productSku: string,
    productImage: Option<string>,
    quantity: nat,
    unitPrice: Cents,
    totalPrice: Cents)

  /** An item row is consistent when its total is quantity times unit price. */
  predicate Priced(it: OrderItem) {
    it.totalPrice == it.quantity * it.unitPrice
  }

  /** The row an input item becomes once saved under an order. */
  function SavedItem(id: OrderId, x: ItemInput): (it: OrderItem)
    ensures Priced(it) && it.orderId == id
    ensures it.quantity == x.quantity && it.unitPrice == x.unitPrice
    ensures it.productName == x.productName && it.productSku == x.productSku
    ensures it.productImage == x.productImage
  {
    OrderItem(id, x.productName, x.productSku, x.productImage, x.quantity, x.unitPrice,
              x.quantity * x.unitPrice)
  }

  /** The rows a list of input items becomes, in input order. */
  function SavedItems(id: OrderId, xs: seq<ItemInput>): (r: seq<OrderItem>)
    ensures |r| == |xs|
  {
    if xs == [] then [] else SavedItems(id, xs[..|xs| - 1]) + [SavedItem(id, xs[|xs| - 1])]
  }

  lemma {:induction false} SavedItemsAt(id: OrderId, xs: seq<ItemInput>, k: nat)
    requires k < |xs|
    ensures SavedItems(id, xs)[k] == SavedItem(id, xs[k])
  {
    if k < |xs| - 1 {
      SavedItemsAt(id, xs[..|xs| - 1], k);
    }
  }

  /** The sum of quantity * unit price over the input items, in input order. */
  function SumLineTotals(xs: seq<ItemInput>): Cents {
    if xs == [] then 0
    else SumLineTotals(xs[..|xs| - 1]) + xs[|xs| - 1].quantity * xs[|xs| - 1].unitPrice
  }

  /** The sum of the stored totals of some item rows. */
  function SumItemTotals(items: seq<OrderItem>): Cents {
    if items == [] then 0
    else SumItemTotals(items[..|items| - 1]) + items[|items| - 1].totalPrice
  }

  /** The totals of the saved rows add up to the line totals of the input. */
  lemma {:induction false} SavedItemsTotal(id: OrderId, xs: seq<ItemInput>)
    ensures SumItemTotals(SavedItems(id, xs)) == SumLineTotals(xs)
  {
    if xs != [] {
      var r := SavedItems(id, xs);
      assert r[..|r| - 1] == SavedItems(id, xs[..|xs| - 1]);
      SavedItemsTotal(id, xs[..|xs| - 1]);
    }
  }

  /** The example order of the repository's API script: one item at 5999.00
      and two at 99.00 come to 6197.00. */
  lemma ExampleOrderTotal()
    ensures SumLineTotals([ItemInput("iPhone 15", "IP15-128G-BLK", Some("https://example.com/iphone15.jpg"), 1, 599900),
                           ItemInput("保护壳", "CASE-IP15-BLK", None, 2, 9900)]) == 619700
  {
    var xs := [ItemInput("iPhone 15", "IP15-128G-BLK", Some("https://example.com/iphone15.jpg"), 1, 599900),
               ItemInput("保护壳", "CASE-IP15-BLK", None, 2, 9900)];
    assert xs[..1][..0] == [];
    assert xs[..|xs| - 1] == xs[..1];
  }

  /** What an activity-log entry records; the human-readable description is
      kept as structured data instead of localised text. */
  datatype Activity =
    | Create
    | StatusChange(from: Status, to: Status, notes: string)
    | Cancel

  /** The action tag stored with each activity. */
  function ActionTag(a: Activity): string {
    match a
    case Create => "CREATE"
    case StatusChange(_, _, _) => "STATUS_CHANGE"
    case Cancel => "CANCEL"
  }

  datatype OrderLog = OrderLog(orderId: OrderId, activity: Activity, operator: Option<UserId>, createdAt: Timestamp)

  /** Whether a status may be cancelled by its owner. */
  predicate Cancellable(s: Status) {
    s == Pending || s == Paid
  }

  /** The timestamp bookkeeping of a status change: the first move into paid,
      shipped or delivered stamps the matching field with `now`. */
  function StampTimestamps(o: Order, s: Status, now: Timestamp): (r: Order)
    ensures r == o.(paidAt := r.paidAt, shippedAt := r.shippedAt, deliveredAt := r.deliveredAt)
    ensures r.paidAt != o.paidAt <==> s == Paid && o.paidAt.None?
    ensures r.shippedAt != o.shippedAt <==> s == Shipped && o.shippedAt.None?
    ensures r.deliveredAt != o.deliveredAt <==> s == Delivered && o.deliveredAt.None?
    ensures r.paidAt == o.paidAt || r.paidAt == Some(now)
    ensures r.shippedAt == o.shippedAt || r.shippedAt == Some(now)
    ensures r.deliveredAt == o.deliveredAt || r.deliveredAt == Some(now)
  {
    if s == Paid && o.paidAt.None? then o.(paidAt := Some(now))
    else if s == Shipped && o.shippedAt.None? then o.(shippedAt := Some(now))
    else if s == Delivered && o.deliveredAt.None? then o.(deliveredAt := Some(now))
    else o
  }

  /** The instance after `update_status` sets status `s` at time `now`,
      before it is saved: only the status and the timestamps move. */
  function StatusUpdated(o: Order, s: Status, now: Timestamp): (r: Order)
    ensures r.status == s
    ensures r == o.(status := s, paidAt := r.paidAt, shippedAt := r.shippedAt, deliveredAt := r.deliveredAt)
    ensures Balanced(o) ==> Balanced(r)
  {
    StampTimestamps(o.(status := s), s, now)
  }

  /** At most one of the three timestamps changes in one update. */
  lemma AtMostOneStamp(o: Order, s: Status, now: Timestamp)
    ensures var r := StatusUpdated(o, s, now);
      (if r.paidAt != o.paidAt then 1 else 0) + (if r.shippedAt != o.shippedAt then 1 else 0)
        + (if r.deliveredAt != o.deliveredAt then 1 else 0) <= 1
  {
  }

  /** A second move into paid leaves the first payment time in place, whatever
      happened in between. */
  lemma PaidAtSetOnce(o: Order, s: Status, t1: Timestamp, t2: Timestamp)
    ensures var once := StatusUpdated(o, Paid, t1);
      StatusUpdated(StatusUpdated(once, s, t2), Paid, t2).paidAt == once.paidAt
  {
  }
}
