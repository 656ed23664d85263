/** The time-weighted average price strategy (`execute_twap_order`): the
    total quantity is split into equal market orders, one per slice, with a
    fixed pause between consecutive slices. The clock reading and the
    network's outcome of each slice are inputs indexed by the slice number. */
module Twap {
  import opened Values
  import opened Dict
  import opened FormEncoding
  import opened Client

  /** Every slice is a market order. */
  const MARKET: string := "MARKET"

  /** The whole number of thousandths nearest to `x`, a tie going to the
      even one. */
  function Thousandths(x: real): int {
    var scaled := x * 1000.0;
    var f := scaled.Floor;
    var frac := scaled - f as real;
    if frac < 0.5 then f else if frac > 0.5 then f + 1 else if f % 2 == 0 then f else f + 1
  }

  /** `round(x, 3)`. */
  function Round3(x: real): real {
    Thousandths(x) as real / 1000.0
  }

  /** Rounding moves a value by at most half a thousandth. */
  lemma Round3Error(x: real)
    ensures -0.0005 <= Round3(x) - x <= 0.0005
  {
    var scaled := x * 1000.0;
    var f := scaled.Floor;
    assert f as real <= scaled < f as real + 1.0;
    var n := Thousandths(x);
    assert n == f || n == f + 1;
    assert Round3(x) - x == (n as real - scaled) / 1000.0;
  }

  /** No whole number of thousandths is nearer to `x` than the one chosen,
      and on a tie the chosen count is even. */
  lemma Round3Nearest(x: real, m: int)
    ensures var d := Thousandths(x) as real - x * 1000.0;
            var e := m as real - x * 1000.0;
      (if d < 0.0 then -d else d) <= (if e < 0.0 then -e else e)
    ensures var d := Thousandths(x) as real - x * 1000.0;
      (d == 0.5 || d == -0.5) ==> Thousandths(x) % 2 == 0
  {
    var f := (x * 1000.0).Floor;
    assert f as real <= x * 1000.0 < f as real + 1.0;
    assert m <= f || m >= f + 1;
  }

  /** A value that already is a whole number of thousandths is kept. */
  lemma Round3Exact(n: int)
    ensures Round3(n as real / 1000.0) == n as real / 1000.0
  {
    var x := n as real / 1000.0;
    assert x * 1000.0 == n as real;
    assert (x * 1000.0).Floor == n;
  }

  /** `qty_per_slice`: the total divided by the number of slices, rounded to
      three decimals. */
  function SliceQuantity(total: real, slices: int): real
    requires slices != 0
  {
    Round3(total / slices as real)
  }

  /** `delay_seconds`: the duration in seconds divided by the number of
      slices; a negative duration gives a negative delay. */
  function SliceDelay(durationMinutes: int, slices: int): (r: real)
    requires slices != 0
    ensures r * slices as real == (durationMinutes * 60) as real
    ensures slices > 0 ==> (r < 0.0 <==> durationMinutes < 0)
  {
    (durationMinutes * 60) as real / slices as real
  }

  /** The exception that ends the strategy early. */
  datatype TwapError =
    | ZeroDivision   // `slices == 0`, raised computing the slice quantity
    | NegativeSleep  // `time.sleep` of a negative delay raises `ValueError`

  datatype Status = Completed | Raised(error: TwapError)

  /** The arguments of one `place_order` call. */
  datatype OrderCall = OrderCall(symbol: string, side: string, orderType: string, quantity: Value, price: Option<Value>)

  /** What the strategy does, in order: a `place_order` call with the clock
      reading its request was stamped with and the response it returned, or
      a pause of some seconds. */
  datatype Event = Order(call: OrderCall, at: int, response: Option<Json>) | Sleep(seconds: real)

  /** The request `place_order` sends for a call, stamped with the given
      clock reading. */
  function CallRequest(cfg: Config, prims: Primitives, call: OrderCall, timestamp: int): Request {
    OrderRequest(cfg, prims, call.symbol, call.side, call.orderType, call.quantity, call.price, timestamp)
  }

  /** Everything one run depends on once the slice quantity and delay are
      computed. */
  datatype Job = Job(
    cfg: Config,
    prims: Primitives,
    symbol: string,
    side: string,
    quantity: real,
    delay: real,
    clock: nat -> int,
    replies: nat -> Outcome)

  /** The call every slice makes: a market order of the caller's symbol
      and side for the slice quantity, with no price. */
  function SliceCall(job: Job): OrderCall {
    OrderCall(job.symbol, job.side, MARKET, Num(job.quantity), None)
  }

  /** The request that the order of slice `k` sends, stamped with the clock
      reading of that slice. */
  function SliceRequest(job: Job, k: nat): Request {
    CallRequest(job.cfg, job.prims, SliceCall(job), job.clock(k))
  }

  /** Slice `k`: the slice's call, stamped with that slice's clock reading,
      and the response to it. */
  function SliceOrder(job: Job, k: nat): Event {
    Order(SliceCall(job), job.clock(k), ResponseOf(job.replies(k)))
  }

  /** Slice `k`'s order, for every `k`. */
  function SliceOrders(job: Job): nat -> Event {
    (k: nat) => SliceOrder(job, k)
  }

  /** The events of the first `i` slices of an `n`-slice run whose slice
      `k` is the event `order(k)`: each slice is followed by a pause of
      `delay` seconds unless it is the last slice of the run. */
  function Schedule(order: nat -> Event, delay: real, n: int, i: nat): seq<Event>
    decreases i
  {
    if i == 0 then []
    else Schedule(order, delay, n, i - 1) + [order(i - 1)] + (if i < n then [Sleep(delay)] else [])
  }

  /** The events of a whole `n`-slice run that no exception cuts short. */
  function Slices(job: Job, n: int): seq<Event> {
    if n <= 0 then [] else Schedule(SliceOrders(job), job.delay, n, n)
  }

  function MakeJob(cfg: Config, prims: Primitives, symbol: string, side: string, totalQuantity: real,
                   durationMinutes: int, slices: int, clock: nat -> int, replies: nat -> Outcome): Job
    requires slices != 0
  {
    Job(cfg, prims, symbol, side, SliceQuantity(totalQuantity, slices), SliceDelay(durationMinutes, slices),
        clock, replies)
  }

  /** The whole run: zero slices fail on the division before any order; a
      negative slice count places nothing; a negative delay fails at the
      first pause, after the first order; otherwise every slice is placed. */
  function TwapRun(cfg: Config, prims: Primitives, symbol: string, side: string, totalQuantity: real,
                   durationMinutes: int, slices: int, clock: nat -> int, replies: nat -> Outcome)
    : (seq<Event>, Status)
  {
    if slices == 0 then ([], Raised(ZeroDivision))
    else
      var job := MakeJob(cfg, prims, symbol, side, totalQuantity, durationMinutes, slices, clock, replies);
      if slices >= 2 && job.delay < 0.0 then ([SliceOrder(job, 0)], Raised(NegativeSleep))
      else (Slices(job, slices), Completed)
  }

  /** One slice: `client.place_order(symbol, side, "MARKET", qty_per_slice)`
      at the clock reading `timestamp`. Returns the order event (the call,
      the clock reading and the mapped response) and the signed request
      the call sent at that clock reading. */
  method PlaceSlice(cfg: Config, prims: Primitives, symbol: string, side: string, quantity: real,
                    timestamp: int, outcome: Outcome)
    returns (event: Event, sent: Request)
    ensures event == Order(OrderCall(symbol, side, MARKET, Num(quantity), None), timestamp, ResponseOf(outcome))
    // Stated through `t == event.at` rather than as an equation on `timestamp`
    // so that the loop in `ExecuteTwap` does not unfold the signing chain.
    ensures forall t :: t == event.at ==> sent == CallRequest(cfg, prims, event.call, t)
  {
    var call := OrderCall(symbol, side, MARKET, Num(quantity), None);
    var response;
    sent, response := PlaceOrder(cfg, prims, call.symbol, call.side, call.orderType, call.quantity, call.price,
                                 timestamp, outcome);
    event := Order(call, timestamp, response);
  }

  /** `execute_twap_order(symbol, side, total_quantity, duration_minutes, slices)`.
      Besides the trace and how the run ended, returns the signed requests
      the slices sent, in order: one per order, slice `k`'s being the
      slice's market order stamped with slice `k`'s clock reading. */
  method ExecuteTwap(cfg: Config, prims: Primitives, symbol: string, side: string, totalQuantity: real,
                     durationMinutes: int, slices: int, clock: nat -> int, replies: nat -> Outcome)
    returns (trace: seq<Event>, status: Status, ghost sends: seq<Request>)
    ensures (trace, status)
            == TwapRun(cfg, prims, symbol, side, totalQuantity, durationMinutes, slices, clock, replies)
    ensures |sends| == Orders(trace)
    ensures slices != 0 ==> forall k :: 0 <= k < |sends| ==>
              sends[k] == SliceRequest(MakeJob(cfg, prims, symbol, side, totalQuantity, durationMinutes, slices,
                                               clock, replies), k)
  {
    sends := [];
    if slices == 0 {
      return [], Raised(ZeroDivision), [];
    }
    var quantity := SliceQuantity(totalQuantity, slices);
    var delay := SliceDelay(durationMinutes, slices);
    ghost var job := MakeJob(cfg, prims, symbol, side, totalQuantity, durationMinutes, slices, clock, replies);
    ghost var call := SliceCall(job);
    assert call == OrderCall(symbol, side, MARKET, Num(quantity), None);
    trace := [];
    var i: nat := 0;
    while i < slices
      invariant i <= slices || i == 0
      invariant trace == Schedule(SliceOrders(job), delay, slices, i)
      invariant 0 < i && slices >= 2 ==> delay >= 0.0
      invariant |sends| == i
      invariant SentAt(cfg, prims, call, clock, sends)
    {
      var event, sent := PlaceSlice(cfg, prims, symbol, side, quantity, clock(i), replies(i));
      trace := trace + [event];
      SentSnoc(cfg, prims, call, clock, sends, event, sent);
      sends := sends + [sent];
      if i < slices - 1 {
        if delay < 0.0 {
          assert i == 0 && slices >= 2;
          assert trace == [SliceOrder(job, 0)];
          assert Orders(trace) == 1 by { assert trace[..|trace| - 1] == []; }
          SentSlices(job, sends);
          return trace, Raised(NegativeSleep), sends;
        }
        trace := trace + [Sleep(delay)];
      }
      i := i + 1;
    }
    if slices >= 1 {
      ScheduleCounts(SliceOrders(job), delay, slices, slices);
    }
    SentSlices(job, sends);
    status := Completed;
  }

  /** `sends[k]` is the request of `call` at slice `k`'s clock reading, for
      every slice so far. */
  // Stated through `t == clock(k)` for the same reason as `PlaceSlice`'s request.
  ghost predicate SentAt(cfg: Config, prims: Primitives, call: OrderCall, clock: nat -> int, sends: seq<Request>) {
    forall k, t :: 0 <= k < |sends| && t == clock(k) ==> sends[k] == CallRequest(cfg, prims, call, t)
  }

  /** The request a slice's `PlaceSlice` sent extends the requests so far. */
  lemma SentSnoc(cfg: Config, prims: Primitives, call: OrderCall, clock: nat -> int, sends: seq<Request>,
                 event: Event, sent: Request)
    requires SentAt(cfg, prims, call, clock, sends)
    requires event.Order? && event.call == call && event.at == clock(|sends|)
    requires forall t :: t == event.at ==> sent == CallRequest(cfg, prims, event.call, t)
    ensures SentAt(cfg, prims, call, clock, sends + [sent])
  {
  }

  /** Requests of the slice call at each slice's clock reading are the
      slices' requests. */
  lemma SentSlices(job: Job, sends: seq<Request>)
    requires SentAt(job.cfg, job.prims, SliceCall(job), job.clock, sends)
    ensures forall k :: 0 <= k < |sends| ==> sends[k] == SliceRequest(job, k)
  {
  }

  /** The number of orders in a trace. */
  function Orders(t: seq<Event>): nat {
    if t == [] then 0 else Orders(t[..|t| - 1]) + (if t[|t| - 1].Order? then 1 else 0)
  }

  /** The number of pauses in a trace. */
  function Pauses(t: seq<Event>): nat {
    if t == [] then 0 else Pauses(t[..|t| - 1]) + (if t[|t| - 1].Sleep? then 1 else 0)
  }

  /** An event with the response forgotten: what the strategy did, as
      opposed to what the exchange answered. */
  function Erase(e: Event): Event {
    match e
    case Order(call, at, _) => Order(call, at, None)
    case Sleep(seconds) => Sleep(seconds)
  }

  function Erased(t: seq<Event>): seq<Event> {
    seq(|t|, j requires 0 <= j < |t| => Erase(t[j]))
  }

  /** The first `i` slices of an `n`-slice run take two events each, except
      that the last slice of the run has no pause after it. */
  lemma {:induction false} ScheduleLength(order: nat -> Event, delay: real, n: int, i: nat)
    requires i <= n
    ensures |Schedule(order, delay, n, i)| == if i == 0 then 0 else if i < n then 2 * i else 2 * i - 1
  {
    if i > 0 {
      ScheduleLength(order, delay, n, i - 1);
    }
  }

  /** Orders and pauses alternate: even positions hold the orders of slices
      0, 1, 2, ... in turn, odd positions the pauses. */
  lemma {:induction false} ScheduleAt(order: nat -> Event, delay: real, n: int, i: nat, j: nat)
    requires i <= n
    requires j < |Schedule(order, delay, n, i)|
    ensures Schedule(order, delay, n, i)[j] == if j % 2 == 0 then order(j / 2) else Sleep(delay)
  {
    ScheduleLength(order, delay, n, i - 1);
    var prev := Schedule(order, delay, n, i - 1);
    if j < |prev| {
      ScheduleAt(order, delay, n, i - 1, j);
    } else {
      assert j == 2 * (i - 1) || j == 2 * (i - 1) + 1;
    }
  }

  /** When every slice is an order, the first `i` slices hold `i` orders,
      and a pause after each of them but the last slice of the run. */
  lemma {:induction false} ScheduleCounts(order: nat -> Event, delay: real, n: int, i: nat)
    requires i <= n
    requires forall k: nat :: k < i ==> order(k).Order?
    ensures Orders(Schedule(order, delay, n, i)) == i
    ensures Pauses(Schedule(order, delay, n, i)) == if 0 < i == n then i - 1 else i
  {
    if i > 0 {
      ScheduleCounts(order, delay, n, i - 1);
      var prev := Schedule(order, delay, n, i - 1);
      var withOrder := prev + [order(i - 1)];
      assert withOrder[..|withOrder| - 1] == prev;
      assert Orders(withOrder) == i && Pauses(withOrder) == i - 1;
      if i < n {
        var t := withOrder + [Sleep(delay)];
        assert t[..|t| - 1] == withOrder;
        assert Orders(t) == i && Pauses(t) == i;
        assert t == Schedule(order, delay, n, i);
      } else {
        assert withOrder == Schedule(order, delay, n, i);
      }
    }
  }

  /** A whole run of `n >= 1` slices: `n` orders, `n - 1` pauses, strictly
      alternating, beginning and ending with an order. */
  lemma SlicesShape(job: Job, n: int)
    requires n >= 1
    ensures |Slices(job, n)| == 2 * n - 1
    ensures Orders(Slices(job, n)) == n && Pauses(Slices(job, n)) == n - 1
    ensures forall j :: 0 <= j < |Slices(job, n)| ==>
              Slices(job, n)[j] == if j % 2 == 0 then SliceOrder(job, j / 2) else Sleep(job.delay)
  {
    ScheduleLength(SliceOrders(job), job.delay, n, n);
    ScheduleCounts(SliceOrders(job), job.delay, n, n);
    forall j | 0 <= j < |Slices(job, n)|
      ensures Slices(job, n)[j] == if j % 2 == 0 then SliceOrder(job, j / 2) else Sleep(job.delay)
    {
      ScheduleAt(SliceOrders(job), job.delay, n, n, j);
    }
  }

  /** Each slice sends a signed POST market order for the slice quantity
      with no price: the query holds the upper-cased symbol and side, the
      type `MARKET` and the quantity, then that slice's timestamp and the
      signature. */
  lemma SliceRequestShape(job: Job, k: nat)
    ensures var r := SliceRequest(job, k);
      && r.verb == POST
      && r.url == job.cfg.baseUrl + ORDER_ENDPOINT
      && Keys(r.query) == ["symbol", "side", "type", "quantity", TIMESTAMP, SIGNATURE]
      && Lookup(r.query, "symbol") == Some(Str(Upper(job.symbol)))
      && Lookup(r.query, "side") == Some(Str(Upper(job.side)))
      && Lookup(r.query, "type") == Some(Str("MARKET"))
      && Lookup(r.query, "quantity") == Some(Num(job.quantity))
      && Lookup(r.query, TIMESTAMP) == Some(Int(job.clock(k)))
  {
    OrderRequestShape(job.cfg, job.prims, job.symbol, job.side, MARKET, Num(job.quantity), None, job.clock(k));
    OrderRequestLookups(job.cfg, job.prims, job.symbol, job.side, MARKET, Num(job.quantity), None, job.clock(k));
    MarketIsUpper();
  }

  lemma MarketIsUpper()
    ensures Upper(MARKET) == MARKET
  {
    UpperSpec(MARKET);
  }

  /** A run that is neither cut short nor empty: it completes, placing every
      slice as an order of the slice quantity with a pause of the slice
      delay between consecutive orders. */
  lemma TwapCompletes(cfg: Config, prims: Primitives, symbol: string, side: string, totalQuantity: real,
                      durationMinutes: int, slices: int, clock: nat -> int, replies: nat -> Outcome)
    requires slices == 1 || (slices >= 2 && durationMinutes >= 0)
    ensures var (t, status) := TwapRun(cfg, prims, symbol, side, totalQuantity, durationMinutes, slices, clock, replies);
            var job := MakeJob(cfg, prims, symbol, side, totalQuantity, durationMinutes, slices, clock, replies);
      && status == Completed
      && |t| == 2 * slices - 1
      && Orders(t) == slices && Pauses(t) == slices - 1
      && t[|t| - 1] == SliceOrder(job, slices - 1)
      && (forall j :: 0 <= j < |t| ==>
            t[j] == if j % 2 == 0 then SliceOrder(job, j / 2) else Sleep(SliceDelay(durationMinutes, slices)))
  {
    var job := MakeJob(cfg, prims, symbol, side, totalQuantity, durationMinutes, slices, clock, replies);
    SlicesShape(job, slices);
  }

  /** The runs that do not place every slice: zero slices raise on the
      division before any order, a negative count places nothing and
      completes, and a negative duration raises at the first pause, after
      exactly one order. */
  lemma TwapCutShort(cfg: Config, prims: Primitives, symbol: string, side: string, totalQuantity: real,
                     durationMinutes: int, slices: int, clock: nat -> int, replies: nat -> Outcome)
    ensures var (t, status) := TwapRun(cfg, prims, symbol, side, totalQuantity, durationMinutes, slices, clock, replies);
      && (slices == 0 ==> t == [] && status == Raised(ZeroDivision))
      && (slices < 0 ==> t == [] && status == Completed)
      && (slices >= 2 && durationMinutes < 0 ==>
            Orders(t) == 1 && Pauses(t) == 0 && status == Raised(NegativeSleep)
            && t[0] == SliceOrder(MakeJob(cfg, prims, symbol, side, totalQuantity, durationMinutes, slices, clock, replies), 0))
  {
    if slices >= 2 && durationMinutes < 0 {
      var t := TwapRun(cfg, prims, symbol, side, totalQuantity, durationMinutes, slices, clock, replies).0;
      assert t[..|t| - 1] == [];
    }
  }

  /** A failed order does not stop or alter the strategy: whatever the
      exchange answers, the same orders and pauses happen in the same
      order and the run ends the same way. */
  lemma RepliesDoNotSteer(cfg: Config, prims: Primitives, symbol: string, side: string, totalQuantity: real,
                          durationMinutes: int, slices: int, clock: nat -> int, replies: nat -> Outcome,
                          otherReplies: nat -> Outcome)
    ensures var run := TwapRun(cfg, prims, symbol, side, totalQuantity, durationMinutes, slices, clock, replies);
            var other := TwapRun(cfg, prims, symbol, side, totalQuantity, durationMinutes, slices, clock, otherReplies);
      Erased(run.0) == Erased(other.0) && run.1 == other.1
  {
    if slices != 0 {
      var job := MakeJob(cfg, prims, symbol, side, totalQuantity, durationMinutes, slices, clock, replies);
      var job2 := MakeJob(cfg, prims, symbol, side, totalQuantity, durationMinutes, slices, clock, otherReplies);
      if !(slices >= 2 && job.delay < 0.0) && slices >= 1 {
        SlicesShape(job, slices);
        SlicesShape(job2, slices);
        var t1, t2 := Slices(job, slices), Slices(job2, slices);
        forall j | 0 <= j < |t1|
          ensures Erased(t1)[j] == Erased(t2)[j]
        {
        }
      }
    }
  }

  /** Slicing leaves no remainder adjustment: the slices together miss the
      total by at most half a thousandth per slice. */
  lemma SliceDrift(total: real, slices: int)
    requires slices >= 1
    ensures var drift := slices as real * SliceQuantity(total, slices) - total;
      -(slices as real) / 2000.0 <= drift <= slices as real / 2000.0
  {
    Round3Error(total / slices as real);
    ScaleBound(slices as real, SliceQuantity(total, slices), total);
  }

  /** A per-slice error of at most half a thousandth adds up over `n` slices. */
  lemma ScaleBound(n: real, q: real, total: real)
    requires n >= 1.0 && -0.0005 <= q - total / n <= 0.0005
    ensures -n / 2000.0 <= n * q - total <= n / 2000.0
  {
    var d := q - total / n;
    assert n * (total / n) == total;
    assert n * q - total == n * d;
    NonNegativeProduct(n, 0.0005 - d);
    NonNegativeProduct(n, d + 0.0005);
  }

  lemma NonNegativeProduct(a: real, b: real)
    requires a >= 0.0 && b >= 0.0
    ensures a * b >= 0.0
  {
  }

  /** Three slices of 0.01 are 0.003 each, so only 0.009 is traded. */
  lemma ThreeSlicesOfOneHundredth()
    ensures SliceQuantity(0.01, 3) == 0.003
    ensures 3.0 * SliceQuantity(0.01, 3) != 0.01
  {
    var x := 0.01 / 3 as real;
    assert x * 1000.0 == 10.0 / 3.0;
    assert (x * 1000.0).Floor == 3;
  }

  /** 0.005 over one minute in five slices: orders of 0.001 every twelve
      seconds, five orders and four pauses. */
  lemma OneMinuteFiveSlices(cfg: Config, prims: Primitives, symbol: string, side: string,
                            clock: nat -> int, replies: nat -> Outcome)
    ensures SliceQuantity(0.005, 5) == 0.001
    ensures SliceDelay(1, 5) == 12.0
    ensures var (t, status) := TwapRun(cfg, prims, symbol, side, 0.005, 1, 5, clock, replies);
      status == Completed && |t| == 9 && Orders(t) == 5 && Pauses(t) == 4
      && (forall j :: 0 <= j < |t| && j % 2 == 1 ==> t[j] == Sleep(12.0))
  {
    var x := 0.005 / 5 as real;
    assert x * 1000.0 == 1.0;
    TwapCompletes(cfg, prims, symbol, side, 0.005, 1, 5, clock, replies);
  }
}
