/** The read side of the order endpoints: the caller-scoped list with its
    optional filters, the object lookup that retrieve, update_status and
    cancel go through, the per-status statistics and the log listing. */
module OrderQueries {
  import opened Common
  import opened OrderModels

  /** Why an order request fails. */
  datatype OrderError =
    | NotFound        // no such order among those the caller may see (404)
    | InvalidStatus   // the requested status is not one of the choices (400)
    | NotCancellable  // cancel on a status other than pending or paid (400)
    | ServerError     // an uncaught exception in the handler (500)

  /** A date query parameter after parsing: absent or empty, not in date
      format (parsing yields nothing), in date format but no real date
      (parsing raises), or a day number counted from the epoch. */
  datatype DateParam = NotGiven | Malformed | Impossible | OnDay(day: int)

  /** The optional query parameters of the order list; an empty string
      stands for an absent parameter. */
  datatype Filters = Filters(status: string, startDate: DateParam, endDate: DateParam, orderNumber: string)

  const DayMicros: int := 86_400_000_000

  /** The calendar day (from the epoch) a timestamp falls on. */
  function DayOf(t: Timestamp): int {
    t / DayMicros
  }

  /** `created_at >= start`: the start date compares as its midnight. */
  predicate FromDay(t: Timestamp, d: int) {
    t >= d * DayMicros
  }

  /** `created_at <= end`: the end date is combined with the last
      microsecond of that day. */
  predicate UntilDay(t: Timestamp, d: int) {
    t <= d * DayMicros + (DayMicros - 1)
  }

  /** The two date filters are the inclusive day range, whole days included. */
  lemma DayBounds(t: Timestamp, d: int)
    ensures FromDay(t, d) <==> d <= DayOf(t)
    ensures UntilDay(t, d) <==> DayOf(t) <= d
  {
    var q, r := t / DayMicros, t % DayMicros;
    assert t == q * DayMicros + r && 0 <= r < DayMicros;
    if d <= q {
      assert d * DayMicros <= q * DayMicros;
    } else {
      assert (q + 1) * DayMicros <= d * DayMicros;
    }
  }

  /** ASCII case folding, as the case-insensitive match of the database does. */
  function FoldCase(c: char): char {
    if 'A' <= c <= 'Z' then (c as int + 32) as char else c
  }

  function FoldCaseString(s: string): (r: string)
    ensures |r| == |s|
    ensures forall i :: 0 <= i < |s| ==> r[i] == FoldCase(s[i])
  {
    seq(|s|, i requires 0 <= i < |s| => FoldCase(s[i]))
  }

  /** `needle` occurs in `hay` at position `i`, ignoring case. */
  ghost predicate OccursAt(hay: string, needle: string, i: int) {
    0 <= i && i + |needle| <= |hay| && FoldCaseString(hay[i..i + |needle|]) == FoldCaseString(needle)
  }

  ghost predicate ContainsIgnoringCase(hay: string, needle: string) {
    exists i :: OccursAt(hay, needle, i)
  }

  /** The substring search itself, trying each start position in turn. */
  function IContains(hay: string, needle: string): bool
    decreases |hay|
  {
    if |needle| > |hay| then false
    else if FoldCaseString(hay[..|needle|]) == FoldCaseString(needle) then true
    else IContains(hay[1..], needle)
  }

  lemma {:induction false} IContainsCorrect(hay: string, needle: string)
    ensures IContains(hay, needle) <==> ContainsIgnoringCase(hay, needle)
    decreases |hay|
  {
    if |needle| > |hay| {
    } else if FoldCaseString(hay[..|needle|]) == FoldCaseString(needle) {
      assert hay[0..0 + |needle|] == hay[..|needle|];
      assert OccursAt(hay, needle, 0);
    } else {
      IContainsCorrect(hay[1..], needle);
      if ContainsIgnoringCase(hay, needle) {
        var i :| OccursAt(hay, needle, i);
        assert i != 0 by {
          assert hay[0..0 + |needle|] == hay[..|needle|];
        }
        assert hay[1..][i - 1..i - 1 + |needle|] == hay[i..i + |needle|];
        assert OccursAt(hay[1..], needle, i - 1);
      }
      if ContainsIgnoringCase(hay[1..], needle) {
        var i :| OccursAt(hay[1..], needle, i);
        assert hay[1..][i..i + |needle|] == hay[i + 1..i + 1 + |needle|];
        assert OccursAt(hay, needle, i + 1);
      }
    }
  }

  /** The declarative reading of the list request: the order is the caller's
      and satisfies every filter that was supplied. */
  ghost predicate Matches(o: Order, caller: UserId, f: Filters) {
    && o.owner == caller
    && (f.status != "" ==> Code(o.status) == f.status)
    && (f.startDate.OnDay? ==> f.startDate.day <= DayOf(o.createdAt))
    && (f.endDate.OnDay? ==> DayOf(o.createdAt) <= f.endDate.day)
    && (f.orderNumber != "" ==> ContainsIgnoringCase(o.orderNumber, f.orderNumber))
  }

  /** A date that raises while parsing aborts the request. */
  predicate FiltersFail(f: Filters) {
    f.startDate.Impossible? || f.endDate.Impossible?
  }

  /** The order list: the caller's orders, then each supplied filter in turn. */
  function ListOrders(orders: seq<Order>, caller: UserId, f: Filters): (r: Result<seq<Order>, OrderError>)
    ensures r.Failure? <==> FiltersFail(f)
    ensures r.Failure? ==> r.error == ServerError
    ensures r.Success? ==> |r.value| <= |orders|
    ensures r.Success? ==> forall o :: o in r.value <==> o in orders && Matches(o, caller, f)
    ensures r.Success? ==> forall o :: multiset(r.value)[o] == if Matches(o, caller, f) then multiset(orders)[o] else 0
  {
    if FiltersFail(f) then Failure(ServerError)
    else
      var mine := Filter(orders, (o: Order) => o.owner == caller);
      var byStatus := FilterWhen(mine, f.status != "", (o: Order) => Code(o.status) == f.status);
      var fromStart := FilterWhen(byStatus, f.startDate.OnDay?,
                                  (o: Order) => f.startDate.OnDay? && FromDay(o.createdAt, f.startDate.day));
      var untilEnd := FilterWhen(fromStart, f.endDate.OnDay?,
                                 (o: Order) => f.endDate.OnDay? && UntilDay(o.createdAt, f.endDate.day));
      var byNumber := FilterWhen(untilEnd, f.orderNumber != "",
                                 (o: Order) => IContains(o.orderNumber, f.orderNumber));
      assert forall o :: multiset(byNumber)[o] == if Matches(o, caller, f) then multiset(orders)[o] else 0 by {
        forall o: Order
          ensures multiset(byNumber)[o] == if Matches(o, caller, f) then multiset(orders)[o] else 0
        {
          VisibleMatches(o, caller, f);
        }
      }
      Success(byNumber)
  }

  /** The same test as the list, for one order. */
  predicate Visible(o: Order, caller: UserId, f: Filters) {
    && o.owner == caller
    && (f.status != "" ==> Code(o.status) == f.status)
    && (f.startDate.OnDay? ==> FromDay(o.createdAt, f.startDate.day))
    && (f.endDate.OnDay? ==> UntilDay(o.createdAt, f.endDate.day))
    && (f.orderNumber != "" ==> IContains(o.orderNumber, f.orderNumber))
  }

  lemma VisibleMatches(o: Order, caller: UserId, f: Filters)
    ensures Visible(o, caller, f) <==> Matches(o, caller, f)
  {
    if f.startDate.OnDay? { DayBounds(o.createdAt, f.startDate.day); }
    if f.endDate.OnDay? { DayBounds(o.createdAt, f.endDate.day); }
    IContainsCorrect(o.orderNumber, f.orderNumber);
  }

  /** The object lookup behind retrieve, update_status and cancel: the order
      with the given id among those the list would show. */
  function LocateOrder(orders: seq<Order>, caller: UserId, f: Filters, id: OrderId): (r: Result<nat, OrderError>)
    ensures FiltersFail(f) ==> r == Failure(ServerError)
    ensures r.Success? ==> r.value < |orders| && orders[r.value].id == id && Matches(orders[r.value], caller, f)
    ensures r.Success? <==> !FiltersFail(f) && exists i :: 0 <= i < |orders| && orders[i].id == id && Matches(orders[i], caller, f)
    ensures r.Failure? && !FiltersFail(f) ==> r.error == NotFound
  {
    if FiltersFail(f) then Failure(ServerError)
    else
      var found := FirstIndex(orders, (o: Order) => o.id == id && Visible(o, caller, f));
      assert forall i :: 0 <= i < |orders| ==>
          (Visible(orders[i], caller, f) <==> Matches(orders[i], caller, f)) by {
        forall i | 0 <= i < |orders| {
          VisibleMatches(orders[i], caller, f);
        }
      }
      match found
      case None => Failure(NotFound)
      case Some(i) => Success(i)
  }

  /** Retrieve: the order itself, when the caller may see it. */
  function Retrieve(orders: seq<Order>, caller: UserId, f: Filters, id: OrderId): (r: Result<Order, OrderError>)
    ensures r.Success? ==> r.value in orders && r.value.id == id && r.value.owner == caller
    ensures r.Success? <==> !FiltersFail(f) && exists o :: o in orders && o.id == id && Matches(o, caller, f)
    ensures r.Failure? ==> r.error == (if FiltersFail(f) then ServerError else NotFound)
  {
    match LocateOrder(orders, caller, f, id)
    case Failure(e) => Failure(e)
    case Success(i) => Success(orders[i])
  }

  /** How many of the orders have status `s`. */
  function CountStatus(orders: seq<Order>, s: Status): nat {
    if orders == [] then 0
    else (if orders[0].status == s then 1 else 0) + CountStatus(orders[1..], s)
  }

  /** The count is the size of the database's `filter(status=...)`. */
  lemma {:induction false} CountStatusIsFilter(orders: seq<Order>, s: Status)
    ensures CountStatus(orders, s) == |Filter(orders, (o: Order) => o.status == s)|
  {
    if orders != [] {
      CountStatusIsFilter(orders[1..], s);
    }
  }

  /** Every order falls in exactly one of the seven status counts. */
  lemma {:induction false} CountsPartition(orders: seq<Order>)
    ensures CountStatus(orders, Pending) + CountStatus(orders, Paid) + CountStatus(orders, Processing)
          + CountStatus(orders, Shipped) + CountStatus(orders, Delivered) + CountStatus(orders, Cancelled)
          + CountStatus(orders, Refunded) == |orders|
  {
    if orders != [] {
      CountsPartition(orders[1..]);
    }
  }

  /** The statistics response: the caller's order count and six of the seven
      per-status counts (there is no refunded bucket). */
  datatype Stats = Stats(total: nat, pending: nat, paid: nat, processing: nat, shipped: nat, delivered: nat, cancelled: nat)

  function OwnedBy(orders: seq<Order>, caller: UserId): (r: seq<Order>)
    ensures forall o :: o in r <==> o in orders && o.owner == caller
  {
    Filter(orders, (o: Order) => o.owner == caller)
  }

  /** Each bucket counts the caller's orders with its status; the six
      buckets add up to the total less the refunded orders. */
  function Statistics(orders: seq<Order>, caller: UserId): (r: Stats)
    ensures r.total == |OwnedBy(orders, caller)|
    ensures r.pending == |Filter(OwnedBy(orders, caller), (o: Order) => o.status == Pending)|
    ensures r.paid == |Filter(OwnedBy(orders, caller), (o: Order) => o.status == Paid)|
    ensures r.processing == |Filter(OwnedBy(orders, caller), (o: Order) => o.status == Processing)|
    ensures r.shipped == |Filter(OwnedBy(orders, caller), (o: Order) => o.status == Shipped)|
    ensures r.delivered == |Filter(OwnedBy(orders, caller), (o: Order) => o.status == Delivered)|
    ensures r.cancelled == |Filter(OwnedBy(orders, caller), (o: Order) => o.status == Cancelled)|
    ensures r.pending + r.paid + r.processing + r.shipped + r.delivered + r.cancelled
              == r.total - CountStatus(OwnedBy(orders, caller), Refunded)
  {
    var mine := OwnedBy(orders, caller);
    CountsPartition(mine);
    CountStatusIsFilter(mine, Pending);
    CountStatusIsFilter(mine, Paid);
    CountStatusIsFilter(mine, Processing);
    CountStatusIsFilter(mine, Shipped);
    CountStatusIsFilter(mine, Delivered);
    CountStatusIsFilter(mine, Cancelled);
    Stats(|mine|, CountStatus(mine, Pending), CountStatus(mine, Paid), CountStatus(mine, Processing),
          CountStatus(mine, Shipped), CountStatus(mine, Delivered), CountStatus(mine, Cancelled))
  }

  /** The log listing of one order: found only when the order exists and
      belongs to the caller (no other filter applies here). */
  function OrderLogs(orders: seq<Order>, logs: seq<OrderLog>, caller: UserId, id: OrderId): (r: Result<seq<OrderLog>, OrderError>)
    ensures r.Success? <==> exists o :: o in orders && o.id == id && o.owner == caller
    ensures r.Failure? ==> r.error == NotFound
    ensures r.Success? ==> forall l :: l in r.value <==> l in logs && l.orderId == id
    ensures r.Success? ==> forall l :: multiset(r.value)[l] == if l.orderId == id then multiset(logs)[l] else 0
  {
    match FirstIndex(orders, (o: Order) => o.id == id && o.owner == caller)
    case None => Failure(NotFound)
    case Some(_) => Success(Filter(logs, (l: OrderLog) => l.orderId == id))
  }
}
