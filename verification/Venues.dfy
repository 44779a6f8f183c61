/** The three policies in front of the engine: each makes a venue the engine can
    trust, and all three trade the same quantities. */
module Venues {
  import opened Instrument
  import opened Allocation
  import opened Orders
  import opened Book
  import opened Independence
  import Fifo
  import ProRata
  import TimeProRata

  ghost function FifoVenue(spec: InstrumentSpec): Venue {
    Venue(spec, Fifo.FifoFills)
  }

  ghost function ProRataVenue(spec: InstrumentSpec): Venue
    requires spec.Valid()
  {
    Venue(spec, ProRata.ProRataPolicy(spec.lotSize))
  }

  ghost function TimeProRataVenue(spec: InstrumentSpec, ageing: TimeProRata.Ageing): Venue
    requires spec.Valid() && ageing.Valid()
  {
    Venue(spec, TimeProRata.TimeProRataPolicy(spec.lotSize, ageing))
  }

  /** From the empty book, any stream of orders from distinct clients gives the
      same errors, outcomes, volumes, cascades and depth under all three. */
  lemma ThreePoliciesAgree(spec: InstrumentSpec, ageing: TimeProRata.Ageing, orders: seq<Order>)
    requires spec.Valid() && ageing.Valid() && DistinctClients(orders)
    requires forall i :: 0 <= i < |orders| ==> orders[i].remaining % spec.lotSize == 0
    ensures SameRules(FifoVenue(spec), ProRataVenue(spec))
    ensures SameRules(FifoVenue(spec), TimeProRataVenue(spec, ageing))
    ensures AgreeThroughout(FifoVenue(spec), ProRataVenue(spec), EMPTY, EMPTY, orders)
    ensures AgreeThroughout(FifoVenue(spec), TimeProRataVenue(spec, ageing), EMPTY, EMPTY, orders)
  {
    hide Conforming, AgreeThroughout, WellFormed;
    Fifo.FifoConforms(spec.lotSize);
    ProRata.ProRataConforms(spec.lotSize);
    TimeProRata.TimeProRataConforms(spec.lotSize, ageing);
    PolicyDecidesWhoNotHowMuch(FifoVenue(spec), ProRataVenue(spec), orders);
    PolicyDecidesWhoNotHowMuch(FifoVenue(spec), TimeProRataVenue(spec, ageing), orders);
  }
}
