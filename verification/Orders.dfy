/** Orders, trades and what the engine reports about them. */
module Orders {
  import opened Sums
  import opened Wrappers
  import opened Instrument
  import opened Allocation

  /** Ids the exchange minted from its sequence, and ids a caller made up. */
  datatype ExchangeId = FromSequence(sequence: nat) | Named(name: string)

  type ClientId = string

  datatype TimeInForce = GTC | IOC | FOK

  datatype OrderType =
    | Limit(price: Price, tif: TimeInForce)
    | Market
    | StopMarket(trigger: Price)
    | StopLimit(trigger: Price, price: Price, tif: TimeInForce)
  {
    predicate IsStop() {
      StopMarket? || StopLimit?
    }

    /** The price an order of this type rests at, now or after triggering. */
    function LimitPrice(): Option<Price> {
      match this
      case Limit(price, _) => Some(price)
      case StopLimit(_, price, _) => Some(price)
      case _ => None
    }

    /** Every price an order of this type carries. */
    function Prices(): seq<Price> {
      match this
      case Limit(price, _) => [price]
      case Market => []
      case StopMarket(trigger) => [trigger]
      case StopLimit(trigger, price, _) => [trigger, price]
    }
  }

  datatype Order = Order(
    id: ExchangeId,
    client: ClientId,
    kind: OrderType,
    side: Side,
    original: Qty,
    remaining: Qty,
    timestamp: nat,
    arrival: nat)

  datatype Trade = Trade(
    price: Price,
    quantity: Qty,
    makerId: ExchangeId,
    takerId: ExchangeId,
    makerClient: ClientId,
    takerClient: ClientId,
    takerSide: Side,
    timestamp: nat)

  datatype Outcome = Rested | PartiallyFilledAndRested | Filled | Killed | StopPending

  /** Triggered reports are flat: their own `triggered` is always empty. */
  datatype Report = Report(
    orderId: ExchangeId,
    trades: seq<Trade>,
    outcome: Outcome,
    cancelled: seq<ExchangeId>,
    triggered: seq<Report>)

  datatype StoreError = UnboundedPriceRange | PriceRangeTooLarge | PriceOutsideRange

  datatype BookError =
    | ExchangeIdDuplicated
    | OrderNotFound
    | Unsupported
    | NotRestable
    | Rejected(reason: RejectReason)
    | Storage(error: StoreError)

  function Opposite(side: Side): Side {
    if side == Bid then Ask else Bid
  }

  /** What a triggered stop becomes. */
  function Activate(order: Order): Order {
    match order.kind
    case StopMarket(_) => order.(kind := Market)
    case StopLimit(_, price, tif) => order.(kind := Limit(price, tif))
    case _ => order
  }

  /** The first price among `prices` the instrument declines decides. */
  function AdmitPrices(spec: InstrumentSpec, prices: seq<Price>): Result<(), RejectReason> {
    if prices == [] then Ok(())
    else
      var first := spec.AdmitsPrice(prices[0]);
      if first.Err? then first else AdmitPrices(spec, prices[1..])
  }

  /** The instrument's admission policy, applied to one order. */
  function Admit(spec: InstrumentSpec, order: Order): Result<(), RejectReason> {
    var prices := AdmitPrices(spec, order.kind.Prices());
    var qty := spec.AdmitsQty(order.original);
    if prices.Err? then prices
    else if qty.Err? then qty
    else
      match order.kind.LimitPrice()
      case None => Ok(())
      case Some(price) => spec.AdmitsNotional(price, order.original)
  }

  // ------------------------------------------------------------ order lists

  function Foreign(orders: seq<Order>, client: ClientId): seq<Order> {
    if orders == [] then []
    else
      var front, last := Foreign(orders[..|orders| - 1], client), orders[|orders| - 1];
      if last.client == client then front else front + [last]
  }

  function Own(orders: seq<Order>, client: ClientId): seq<Order> {
    if orders == [] then []
    else
      var front, last := Own(orders[..|orders| - 1], client), orders[|orders| - 1];
      if last.client == client then front + [last] else front
  }

  function Without(orders: seq<Order>, id: ExchangeId): seq<Order> {
    if orders == [] then []
    else
      var front, last := Without(orders[..|orders| - 1], id), orders[|orders| - 1];
      if last.id == id then front else front + [last]
  }

  /** The queue as an allocation policy sees it. */
  function MakersOf(orders: seq<Order>): (makers: seq<Maker>)
    ensures |makers| == |orders|
    ensures forall i :: 0 <= i < |orders| ==> makers[i] == Maker(orders[i].remaining, orders[i].arrival)
  {
    seq(|orders|, i requires 0 <= i < |orders| => Maker(orders[i].remaining, orders[i].arrival))
  }

  function IdsOf(orders: seq<Order>): (ids: seq<ExchangeId>)
    ensures |ids| == |orders|
    ensures forall i :: 0 <= i < |orders| ==> ids[i] == orders[i].id
  {
    seq(|orders|, i requires 0 <= i < |orders| => orders[i].id)
  }

  function Quantity(orders: seq<Order>): nat {
    if orders == [] then 0 else Quantity(orders[..|orders| - 1]) + orders[|orders| - 1].remaining
  }

  /** What the queue looks like once each order has paid its share: exhausted
      orders that were touched are gone. */
  function Settle(orders: seq<Order>, shares: seq<nat>): seq<Order>
    requires |shares| == |orders|
    requires forall i :: 0 <= i < |orders| ==> shares[i] <= orders[i].remaining
  {
    if orders == [] then []
    else
      var n := |orders| - 1;
      var front := Settle(orders[..n], shares[..n]);
      if shares[n] > 0 && shares[n] == orders[n].remaining then front
      else front + [orders[n].(remaining := orders[n].remaining - shares[n])]
  }

  function TradesOf(price: Price, makers: seq<Order>, fills: seq<Fill>, taker: Order): (trades: seq<Trade>)
    requires forall k :: 0 <= k < |fills| ==> fills[k].index < |makers|
    ensures |trades| == |fills|
  {
    seq(|fills|, k requires 0 <= k < |fills| =>
      Trade(price, fills[k].quantity, makers[fills[k].index].id, taker.id,
            makers[fills[k].index].client, taker.client, taker.side, taker.timestamp))
  }

  function Traded(trades: seq<Trade>): nat {
    if trades == [] then 0 else Traded(trades[..|trades| - 1]) + trades[|trades| - 1].quantity
  }

  lemma {:induction false} TradedAppends(a: seq<Trade>, b: seq<Trade>)
    ensures Traded(a + b) == Traded(a) + Traded(b)
  {
    if b == [] {
      assert a + b == a;
    } else {
      assert (a + b)[..|a + b| - 1] == a + b[..|b| - 1];
      TradedAppends(a, b[..|b| - 1]);
    }
  }

  lemma {:induction false} QuantityAppends(a: seq<Order>, b: seq<Order>)
    ensures Quantity(a + b) == Quantity(a) + Quantity(b)
  {
    if b == [] {
      assert a + b == a;
    } else {
      assert (a + b)[..|a + b| - 1] == a + b[..|b| - 1];
      QuantityAppends(a, b[..|b| - 1]);
    }
  }

  lemma {:induction false} TradedIsFilled(price: Price, makers: seq<Order>, fills: seq<Fill>, taker: Order)
    requires forall k :: 0 <= k < |fills| ==> fills[k].index < |makers|
    ensures Traded(TradesOf(price, makers, fills, taker)) == Sum(Quantities(fills))
  {
    if fills != [] {
      var n := |fills| - 1;
      TradedIsFilled(price, makers, fills[..n], taker);
      assert TradesOf(price, makers, fills, taker)[..n] == TradesOf(price, makers, fills[..n], taker);
      assert Quantities(fills)[..n] == Quantities(fills[..n]);
    }
  }

  lemma {:induction false} QuantityIsTotal(orders: seq<Order>)
    ensures Quantity(orders) == Sum(Sizes(MakersOf(orders)))
  {
    if orders != [] {
      var n := |orders| - 1;
      QuantityIsTotal(orders[..n]);
      assert Sizes(MakersOf(orders))[..n] == Sizes(MakersOf(orders[..n]));
    }
  }

  lemma {:induction false} QuantitySplits(orders: seq<Order>, client: ClientId)
    ensures Quantity(orders) == Quantity(Foreign(orders, client)) + Quantity(Own(orders, client))
  {
    if orders != [] {
      QuantitySplits(orders[..|orders| - 1], client);
    }
  }

  lemma {:induction false} SettleQuantity(orders: seq<Order>, shares: seq<nat>)
    requires |shares| == |orders|
    requires forall i :: 0 <= i < |orders| ==> shares[i] <= orders[i].remaining
    ensures Quantity(Settle(orders, shares)) + Sum(shares) == Quantity(orders)
  {
    if orders != [] {
      var n := |orders| - 1;
      SettleQuantity(orders[..n], shares[..n]);
    }
  }

  // -------------------------------------------------------------- admission

  /** The price lies in the instrument's band. */
  predicate InBand(spec: InstrumentSpec, price: Price) {
    spec.minPrice <= price && (spec.maxPrice.Some? ==> price <= spec.maxPrice.value)
  }

  /** What an order must satisfy: every price it carries in the band, its original
      quantity within bounds, and its worth no less than the floor where a limit
      price makes it known. */
  predicate Acceptable(spec: InstrumentSpec, order: Order) {
    && match order.kind {
         case Limit(price, _) => InBand(spec, price)
         case Market => true
         case StopMarket(trigger) => InBand(spec, trigger)
         case StopLimit(trigger, price, _) => InBand(spec, trigger) && InBand(spec, price)
       }
    && spec.minQty <= order.original && (spec.maxQty.Some? ==> order.original <= spec.maxQty.value)
    && (spec.minNotional.Some? && (order.kind.Limit? || order.kind.StopLimit?) ==>
          order.kind.price * order.original >= spec.minNotional.value)
  }

  /** An order is admitted exactly when it is acceptable, and a refusal names a
      bound that it breaks. */
  lemma AdmitsExactly(spec: InstrumentSpec, order: Order)
    ensures Admit(spec, order).Ok? <==> Acceptable(spec, order)
    ensures Admit(spec, order).Err? ==>
              match Admit(spec, order).error
              case PriceBelowMinimum => exists price :: price in order.kind.Prices() && price < spec.minPrice
              case PriceAboveMaximum =>
                spec.maxPrice.Some? && exists price :: price in order.kind.Prices() && price > spec.maxPrice.value
              case QuantityBelowMinimum => order.original < spec.minQty
              case QuantityAboveMaximum => spec.maxQty.Some? && order.original > spec.maxQty.value
              case NotionalBelowMinimum =>
                && spec.minNotional.Some? && (order.kind.Limit? || order.kind.StopLimit?)
                && order.kind.price * order.original < spec.minNotional.value
  {
    AdmitsPricesExactly(spec, order.kind.Prices());
    var prices := order.kind.Prices();
    assert order.kind.StopLimit? ==> prices[0] == order.kind.trigger && prices[1] == order.kind.price;
    assert order.kind.Limit? ==> prices[0] == order.kind.price;
    assert order.kind.StopMarket? ==> prices[0] == order.kind.trigger;
  }

  ghost predicate AllInBand(spec: InstrumentSpec, prices: seq<Price>) {
    forall i :: 0 <= i < |prices| ==> InBand(spec, prices[i])
  }

  lemma {:induction false} AdmitsPricesExactly(spec: InstrumentSpec, prices: seq<Price>)
    ensures AdmitPrices(spec, prices).Ok? <==> AllInBand(spec, prices)
    ensures AdmitPrices(spec, prices).Err? ==>
              exists price :: price in prices
                && AdmitPrices(spec, prices).error == BandBroken(spec, price) && !InBand(spec, price)
  {
    if prices == [] {
    } else if !InBand(spec, prices[0]) {
      assert prices[0] in prices && AdmitPrices(spec, prices) == Err(BandBroken(spec, prices[0]));
    } else {
      AdmitsPricesExactly(spec, prices[1..]);
      assert AllInBand(spec, prices) <==> AllInBand(spec, prices[1..]) by {
        assert forall i :: 0 < i < |prices| ==> prices[i] == prices[1..][i - 1];
        assert forall i :: 0 <= i < |prices[1..]| ==> prices[1..][i] == prices[i + 1];
      }
    }
  }

  function BandBroken(spec: InstrumentSpec, price: Price): RejectReason {
    if price < spec.minPrice then PriceBelowMinimum else PriceAboveMaximum
  }
}
