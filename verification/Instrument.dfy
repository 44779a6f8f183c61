/** The instrument's grid of legal prices and quantities, and what it admits. */
module Instrument {
  import opened Sums
  import opened Widths
  import opened Wrappers
  import opened Decimals

  /** A price in minor units and a quantity in base units. */
  type Price = nat
  type Qty = nat

  datatype Side = Bid | Ask

  datatype Rounding = Down | Up | TowardPassive(side: Side)

  datatype SpecError = PriceNegative | PriceTooPrecise | PriceOffTick | PriceOutOfRange | InvalidSpec

  datatype RejectReason =
    | PriceBelowMinimum
    | PriceAboveMaximum
    | QuantityBelowMinimum
    | QuantityAboveMaximum
    | NotionalBelowMinimum

  datatype InstrumentSpec = InstrumentSpec(
    priceScale: nat,
    qtyScale: nat,
    tickSize: nat,
    lotSize: nat,
    minPrice: Price,
    maxPrice: Option<Price>,
    minQty: Qty,
    maxQty: Option<Qty>,
    minNotional: Option<nat>)
  {
    /** What construction guarantees: a non-degenerate grid whose bounds lie on it. */
    predicate Valid() {
      && priceScale <= MAX_SCALE && qtyScale <= MAX_SCALE
      && 0 < tickSize < TWO_64 && 0 < lotSize < TWO_64
      && minPrice < TWO_64 && minPrice % tickSize == 0
      && (maxPrice.Some? ==> minPrice <= maxPrice.value < TWO_64 && maxPrice.value % tickSize == 0)
      && minQty < TWO_64 && minQty % lotSize == 0
      && (maxQty.Some? ==> minQty <= maxQty.value < TWO_64 && maxQty.value % lotSize == 0)
    }

    function AdmitsPrice(price: Price): Result<(), RejectReason> {
      if price < minPrice then Err(PriceBelowMinimum)
      else if maxPrice.Some? && price > maxPrice.value then Err(PriceAboveMaximum)
      else Ok(())
    }

    function AdmitsQty(qty: Qty): Result<(), RejectReason> {
      if qty < minQty then Err(QuantityBelowMinimum)
      else if maxQty.Some? && qty > maxQty.value then Err(QuantityAboveMaximum)
      else Ok(())
    }

    function AdmitsNotional(price: Price, qty: Qty): Result<(), RejectReason> {
      match minNotional
      case None => Ok(())
      case Some(min) => if Notional(price, qty) < min then Err(NotionalBelowMinimum) else Ok(())
    }

    function WithPriceRange(min: Price, max: Option<Price>): (r: Result<InstrumentSpec, SpecError>)
      requires Valid() && min < TWO_64 && (max.Some? ==> max.value < TWO_64)
      ensures r.Ok? ==> r.value.Valid() && r.value.minPrice == min && r.value.maxPrice == max
      ensures r.Ok? <==> min % tickSize == 0 && (max.Some? ==> max.value % tickSize == 0 && min <= max.value)
    {
      if min % tickSize != 0 then Err(InvalidSpec)
      else if max.Some? && max.value % tickSize != 0 then Err(InvalidSpec)
      else if max.Some? && max.value < min then Err(InvalidSpec)
      else Ok(this.(minPrice := min, maxPrice := max))
    }

    function WithMinNotional(floor: Decimal): (r: Result<InstrumentSpec, SpecError>)
      requires Valid()
      ensures r.Ok? ==> r.value.Valid()
    {
      match CeilScaled(floor, priceScale + qtyScale)
      case None => Err(InvalidSpec)
      case Some(raw) => Ok(this.(minNotional := Some(raw)))
    }

    function PriceFromMinor(minor: nat): Result<Price, SpecError>
      requires Valid()
    {
      if minor % tickSize != 0 then Err(PriceOffTick) else Ok(minor)
    }

    /** Place a decimal price on the grid, or say why it does not belong there. */
    function PriceOf(d: Decimal): Result<Price, SpecError>
      requires Valid()
    {
      match SplitMinor(d, priceScale)
      case Negative => Err(PriceNegative)
      case TooLarge => Err(PriceOutOfRange)
      case Split(minor, remainder) => if remainder then Err(PriceTooPrecise) else PriceFromMinor(minor)
    }

    function RoundPrice(d: Decimal, rounding: Rounding): Result<Price, SpecError>
      requires Valid()
    {
      match SplitMinor(d, priceScale)
      case Negative => Err(PriceNegative)
      case TooLarge => Err(PriceOutOfRange)
      case Split(floorMinor, hasRemainder) =>
        RoundMinor(floorMinor, hasRemainder, RoundsUp(rounding), tickSize)
    }
  }

  /** Price times quantity, widened. */
  function Notional(price: Price, qty: Qty): nat {
    price * qty
  }

  /** The price of so many whole ticks. */
  function Ticks(count: nat, tick: nat): nat {
    count * tick
  }

  function RoundMinor(floorMinor: nat, hasRemainder: bool, up: bool, tick: nat): Result<Price, SpecError>
    requires tick > 0
  {
    var downTick: nat := floorMinor / tick;
    var exact := floorMinor % tick == 0 && !hasRemainder;
    if up && !exact then
      if downTick + 1 >= TWO_64 || Ticks(downTick + 1, tick) >= TWO_64 then Err(PriceOutOfRange)
      else Ok(Ticks(downTick + 1, tick))
    else Ok(Ticks(downTick, tick))
  }

  predicate RoundsUp(rounding: Rounding) {
    match rounding
    case Down => false
    case Up => true
    case TowardPassive(side) => side == Ask
  }

  ghost predicate OnTick(spec: InstrumentSpec, p: nat)
    requires spec.Valid()
  {
    p % spec.tickSize == 0
  }

  /** A price is accepted exactly when it is a tick point of the 64-bit grid, and
      then it is that very number. */
  lemma PriceOfIsExact(spec: InstrumentSpec, d: Decimal)
    requires spec.Valid() && d.Valid()
    ensures var r := spec.PriceOf(d);
            && (r.Ok? ==> AtMost(r.value, d, spec.priceScale) && AtLeast(r.value, d, spec.priceScale)
                          && OnTick(spec, r.value) && r.value < TWO_64)
            && (r.Err? ==> forall p: nat :: p < TWO_64 && OnTick(spec, p) ==>
                  !(AtMost(p, d, spec.priceScale) && AtLeast(p, d, spec.priceScale)))
  {
    SplitMinorIsExact(d, spec.priceScale);
    var r := spec.PriceOf(d);
    if r.Err? {
      forall p: nat | p < TWO_64 && OnTick(spec, p)
        ensures !(AtMost(p, d, spec.priceScale) && AtLeast(p, d, spec.priceScale))
      {
        if AtMost(p, d, spec.priceScale) && AtLeast(p, d, spec.priceScale) {
          PointIsItsOwnFloor(d, spec.priceScale, p);
        }
      }
    }
  }

  lemma PointIsItsOwnFloor(d: Decimal, scale: nat, p: nat)
    requires d.Valid() && scale <= MAX_SCALE && p < TWO_64
    requires AtMost(p, d, scale) && AtLeast(p, d, scale)
    ensures SplitMinor(d, scale) == Split(p, false)
  {
    SplitMinorIsExact(d, scale);
    MulStrictlyMonotone(Pow10(d.scale), p, p + 1);
    MulStrictlyMonotone(Pow10(d.scale), p, TWO_64);
    ScaleCompare(d.mantissa, 0, Pow10(scale));
    var r := SplitMinor(d, scale);
    if r.Split? {
      FloorIsUnique(d, scale, p, r.minor);
    }
  }

  /** The ticks on either side of a grid point, and that there is none between. */
  lemma TickFloor(tick: nat, x: nat)
    requires tick > 0
    ensures Ticks(x / tick, tick) % tick == 0
    ensures Ticks(x / tick + 1, tick) % tick == 0
    ensures Ticks(x / tick, tick) <= x < Ticks(x / tick + 1, tick)
    ensures x % tick == 0 ==> Ticks(x / tick, tick) == x
  {
    TicksOnGrid(x / tick, tick);
    TicksOnGrid(x / tick + 1, tick);
    Distribute(tick, x / tick, 1);
  }

  lemma TicksOnGrid(count: nat, tick: nat)
    requires tick > 0
    ensures Ticks(count, tick) % tick == 0
  {
    MultipleModulo(count, tick);
    assert Ticks(count, tick) == tick * count;
  }

  lemma NoTickBetween(tick: nat, x: nat, q: nat)
    requires tick > 0 && q % tick == 0
    ensures q <= x ==> q <= Ticks(x / tick, tick)
    ensures q > x ==> q >= Ticks(x / tick + 1, tick)
  {
    Multiple(q, tick);
    if q <= x {
      DivMonotone(q, x, tick);
      MulMonotone(tick, q / tick, x / tick);
    } else {
      TickFloor(tick, x);
      CancelLt(tick, x / tick, q / tick);
      MulMonotone(tick, x / tick + 1, q / tick);
    }
  }

  /** Rounding down, or a bid toward its passive side, returns the greatest tick at or below the value, and fails
      only on values that are negative or past the 64-bit grid. */
  lemma RoundDownIsGreatest(spec: InstrumentSpec, d: Decimal, rounding: Rounding)
    requires spec.Valid() && d.Valid() && (rounding == Down || rounding == TowardPassive(Bid))
    ensures var r := spec.RoundPrice(d, rounding);
            && (r.Ok? <==> d.mantissa >= 0 && !AtMost(TWO_64, d, spec.priceScale))
            && (r.Ok? ==>
                  && OnTick(spec, r.value) && AtMost(r.value, d, spec.priceScale)
                  && forall p: nat :: OnTick(spec, p) && AtMost(p, d, spec.priceScale) ==> p <= r.value)
  {
    SplitMinorIsExact(d, spec.priceScale);
    var split := SplitMinor(d, spec.priceScale);
    if split.Split? {
      TickFloor(spec.tickSize, split.minor);
      var r := spec.RoundPrice(d, rounding).value;
      AtMostDownward(d, spec.priceScale, r, split.minor);
      forall p: nat | OnTick(spec, p) && AtMost(p, d, spec.priceScale)
        ensures p <= r
      {
        BelowTheFloor(d, spec.priceScale, p, split.minor);
        NoTickBetween(spec.tickSize, split.minor, p);
      }
    }
  }

  lemma BelowTheFloor(d: Decimal, scale: nat, p: nat, floor: nat)
    requires AtMost(p, d, scale) && !AtMost(floor + 1, d, scale)
    ensures p <= floor
  {
    if p > floor {
      AtMostDownward(d, scale, floor + 1, p);
    }
  }

  /** Rounding up, or an ask toward its passive side, returns the least tick at or above the value, and succeeds
      exactly when the value is not negative and such a tick fits 64 bits. */
  lemma RoundUpIsLeast(spec: InstrumentSpec, d: Decimal, rounding: Rounding)
    requires spec.Valid() && d.Valid() && (rounding == Up || rounding == TowardPassive(Ask))
    ensures var r := spec.RoundPrice(d, rounding);
            && (r.Ok? ==>
                  && OnTick(spec, r.value) && AtLeast(r.value, d, spec.priceScale) && r.value < TWO_64
                  && forall p: nat :: OnTick(spec, p) && AtLeast(p, d, spec.priceScale) ==> p >= r.value)
            && (d.mantissa < 0 ==> r.Err?)
            && (r.Err? && d.mantissa >= 0 ==>
                  forall p: nat :: OnTick(spec, p) && AtLeast(p, d, spec.priceScale) ==> p >= TWO_64)
  {
    SplitMinorIsExact(d, spec.priceScale);
    var split := SplitMinor(d, spec.priceScale);
    if split.Split? {
      RoundUpFromFloor(spec.tickSize, d, spec.priceScale, split.minor, split.remainder);
    } else if split.TooLarge? {
      forall p: nat | AtLeast(p, d, spec.priceScale)
        ensures p >= TWO_64
      {
        AboveWhatIsBelow(d, spec.priceScale, p, TWO_64);
      }
    }
  }

  lemma AboveWhatIsBelow(d: Decimal, scale: nat, p: nat, floor: nat)
    requires AtLeast(p, d, scale) && AtMost(floor, d, scale)
    ensures p >= floor
  {
    if p < floor {
      MulStrictlyMonotone(Pow10(d.scale), p, floor);
    }
  }

  lemma AtLeastUpward(d: Decimal, scale: nat, low: nat, high: nat)
    requires !AtMost(low, d, scale) && low <= high
    ensures AtLeast(high, d, scale)
  {
    MulMonotone(Pow10(d.scale), low, high);
  }

  lemma RoundUpFromFloor(tick: nat, d: Decimal, scale: nat, floor: nat, remainder: bool)
    requires tick > 0 && floor < TWO_64
    requires AtMost(floor, d, scale) && !AtMost(floor + 1, d, scale)
    requires remainder <==> !AtLeast(floor, d, scale)
    ensures var r := RoundMinor(floor, remainder, true, tick);
            && (r.Ok? ==>
                  && r.value % tick == 0 && AtLeast(r.value, d, scale) && r.value < TWO_64
                  && forall p: nat :: p % tick == 0 && AtLeast(p, d, scale) ==> p >= r.value)
            && (r.Err? ==> forall p: nat :: p % tick == 0 && AtLeast(p, d, scale) ==> p >= TWO_64)
  {
    hide AtMost, AtLeast, Ticks;
    TickFloor(tick, floor);
    var up := if floor % tick == 0 && !remainder then floor else Ticks(floor / tick + 1, tick);
    if up > floor {
      AtLeastUpward(d, scale, floor + 1, up);
    }
    forall p: nat | p % tick == 0 && AtLeast(p, d, scale)
      ensures p >= up
    {
      AboveWhatIsBelow(d, scale, p, floor);
      NoTickBetween(tick, floor, p);
    }
    MulMonotone(floor / tick + 1, 1, tick);
  }

  /** When a notional floor was accepted, the integer test agrees with the exact
      comparison of price times quantity against the stated decimal, and the
      product it computes fits 128 bits. */
  lemma NotionalTestIsExact(spec: InstrumentSpec, floor: Decimal, price: Price, qty: Qty)
    requires spec.Valid() && floor.Valid() && spec.WithMinNotional(floor).Ok?
    requires price < TWO_64 && qty < TWO_64
    ensures spec.WithMinNotional(floor).value.AdmitsNotional(price, qty).Ok? <==>
            AtLeast(Notional(price, qty), floor, spec.priceScale + spec.qtyScale)
    ensures Notional(price, qty) < TWO_128
  {
    CeilScaledIsCeiling(floor, spec.priceScale + spec.qtyScale);
    ProductFits(price, qty);
  }
}
