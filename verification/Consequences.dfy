/** What follows from reports being true: limits kept, the last trade price on the
    tape, cancellations reported, and which parked stops fire. */
module Consequences {
  import opened Wrappers
  import opened Instrument
  import opened Orders
  import opened Book
  import opened LevelFacts
  import opened Engine
  import opened Prints
  import opened Firing
  import opened Reports

  // ------------------------------------------------------------------ limits

  /** No trade beyond the limit of an order, whether it rests, takes or is a stop
      that has fired. */
  ghost predicate WithinLimit(order: Order, trades: seq<Trade>) {
    forall k :: 0 <= k < |trades| && (order.kind.Limit? || order.kind.StopLimit?) ==>
      && (order.side == Bid ==> trades[k].price <= order.kind.price)
      && (order.side == Ask ==> trades[k].price >= order.kind.price)
  }

  /** A triggered report is that of a stop that had been parked, within its limit. */
  ghost predicate OfStop(books: seq<Book>, report: Report) {
    exists b, s :: b in books && IsParked(b, s) && s.id == report.orderId && WithinLimit(s, report.trades)
  }

  /** Over a submission and everything it triggers, nobody pays more or gets less
      than its own limit. */
  lemma SubmitKeepsLimits(venue: Venue, b: Book, order: Order) returns (books: seq<Book>)
    requires Ready(venue, b) && Whole(venue, order) && StopsInTurn(b) && Submit(venue, b, order).error.None?
    ensures Submit(venue, b, order).log != []
    ensures var report := ReportOf(Submit(venue, b, order).log);
            && WithinLimit(order, report.trades)
            && forall i :: 0 <= i < |report.triggered| ==> OfStop(books, report.triggered[i])
  {
    hide Submit, WellFormed, LiveIds, StopsInTurn, Handled, FokTold, OutcomeTold, TookAllItCould, IsParked, Reached,
      NextInLine, Unparked, BookStocked, WithinLimit, FirstTold, NobodyInLine;
    SubmissionIsTold(venue, b, order);
    var report, after := ReportOf(Submit(venue, b, order).log), Submit(venue, b, order).book;
    books :| Story(b, order, report, after, books);
    FirstWithinLimit(b, order, report.(triggered := []), books[0]);
    forall i | 0 <= i < |report.triggered|
      ensures OfStop(books, report.triggered[i])
    {
      assert TurnTold(books[i], report.triggered[i], books[i + 1]);
      TurnWithinLimit(books, books[i], report.triggered[i], books[i + 1]);
    }
  }

  lemma FirstWithinLimit(b: Book, order: Order, report: Report, after: Book)
    requires FirstTold(b, order, report, after)
    ensures WithinLimit(order, report.trades)
  {
    hide MakersTold, CancelledTold, RemainderTold, IsParked, BookStocked, Signed, FokTold;
  }

  lemma TurnWithinLimit(books: seq<Book>, before: Book, report: Report, after: Book)
    requires before in books && TurnTold(before, report, after)
    ensures OfStop(books, report)
  {
    hide MakersTold, CancelledTold, RemainderTold, Unparked, BookStocked, Signed, FokTold, GoesBefore, Reached;
    var s, mid, now :| TurnOf(before, s, mid, now, report, after);
    assert IsParked(before, s) && s.id == report.orderId && WithinLimit(s, report.trades);
  }

  // --------------------------------------------------------- last trade price

  /** Every print of a report, the triggered ones after the order's own. */
  function Tape(trades: seq<Trade>, triggered: seq<Report>): seq<Trade> {
    if triggered == [] then trades
    else Tape(trades, triggered[..|triggered| - 1]) + triggered[|triggered| - 1].trades
  }

  /** The price last printed, or what it was. */
  function LastOn(before: Option<Price>, tape: seq<Trade>): Option<Price> {
    if tape == [] then before else Some(tape[|tape| - 1].price)
  }

  lemma {:induction false} TrailKeepsLast(books: seq<Book>, reports: seq<Report>, before: Option<Price>,
                                          trades: seq<Trade>)
    requires Trail(books, reports) && books[0].last == LastOn(before, trades)
    ensures books[|books| - 1].last == LastOn(before, Tape(trades, reports))
  {
    hide Handled, FokTold, OutcomeTold, TookAllItCould, NextInLine, BookStocked;
    if reports != [] {
      var n := |reports| - 1;
      assert Trail(books[..n + 1], reports[..n]) by {
        forall i | 0 <= i < n
          ensures TurnTold(books[..n + 1][i], reports[..n][i], books[..n + 1][i + 1])
        {
          assert TurnTold(books[i], reports[i], books[i + 1]);
        }
      }
      TrailKeepsLast(books[..n + 1], reports[..n], before, trades);
      assert TurnTold(books[n], reports[n], books[n + 1]);
      TurnMovesLast(books[n], reports[n], books[n + 1]);
    }
  }

  lemma TurnMovesLast(before: Book, report: Report, after: Book)
    requires TurnTold(before, report, after)
    ensures after.last == LastOn(before.last, report.trades)
  {
    hide MakersTold, CancelledTold, RemainderTold, BookStocked, Signed, FokTold, NextInLine, PricedFor;
  }

  lemma FirstMovesLast(b: Book, order: Order, report: Report, after: Book)
    requires FirstTold(b, order, report, after)
    ensures after.last == LastOn(b.last, report.trades)
  {
    hide MakersTold, CancelledTold, RemainderTold, BookStocked, Signed, FokTold, PricedFor, Reached, IsParked;
  }

  /** After a submission the last trade price is that of the last print on its
      report, triggered ones included, and unchanged if there is none. */
  lemma SubmitMovesLast(venue: Venue, b: Book, order: Order)
    requires Ready(venue, b) && Whole(venue, order) && StopsInTurn(b) && Submit(venue, b, order).error.None?
    ensures Submit(venue, b, order).log != []
    ensures var report := ReportOf(Submit(venue, b, order).log);
            Submit(venue, b, order).book.last == LastOn(b.last, Tape(report.trades, report.triggered))
  {
    hide Submit, WellFormed, LiveIds, StopsInTurn, TurnTold, FirstTold, NobodyInLine, Tape, LastOn;
    SubmissionIsTold(venue, b, order);
    var report, after := ReportOf(Submit(venue, b, order).log), Submit(venue, b, order).book;
    var books :| Story(b, order, report, after, books);
    FirstMovesLast(b, order, report.(triggered := []), books[0]);
    TrailKeepsLast(books, report.triggered, b.last, report.trades);
  }

  // ------------------------------------------------------------ cancellations

  lemma {:induction false} ListedIsResting(levels: seq<PriceLevel>, id: ExchangeId) returns (o: Order)
    requires id in Ids(levels)
    ensures Resting(levels, o) && o.id == id
  {
    if id in IdBag(levels[0].orders) {
      var j := CountedAt(levels[0].orders, id);
      o := levels[0].orders[j];
    } else {
      o := ListedIsResting(levels[1..], id);
    }
    RestsSomewhere(levels, o);
  }

  lemma NoIdTwice(spec: InstrumentSpec, b: Book)
    requires spec.lotSize > 0 && WellFormed(spec, b)
    ensures Distinct(LiveIds(b)) && LiveIds(b.(nextSeq := b.nextSeq + 1)) == LiveIds(b)
  {}

  /** An own order that is gone from the side it rested on is gone altogether,
      unless the order being run was given its very id. */
  lemma GoneIsDead(before: Book, order: Order, report: Report, after: Book, id: ExchangeId)
    requires Executed(before, order, report, after) && Distinct(LiveIds(before)) && order.id !in LiveIds(before)
    requires OwnGone(Facing(before, order.side), Facing(after, order.side), order.client, id)
    ensures id !in LiveIds(after)
  {
    hide Resting, Ids, MakersTold, CancelledTold, FokTold, Signed, PricedFor, BookStocked;
    var m :| Resting(Facing(before, order.side), m) && m.id == id;
    RestingIsListed(Facing(before, order.side), m);
    assert LiveIds(before)[id] <= 1;
    if id in Ids(Beside(after, order.side)) {
      var o := ListedIsResting(Beside(after, order.side), id);
      if Resting(Beside(before, order.side), o) {
        RestingIsListed(Beside(before, order.side), o);
      }
    }
  }

  /** An order that is not a stop and sets none off: what its report lists as
      cancelled is exactly what its client had resting on the other side and has
      no more, each once. */
  lemma SubmitReportsCancellations(venue: Venue, b: Book, order: Order, id: ExchangeId)
    requires Ready(venue, b) && Whole(venue, order) && StopsInTurn(b) && Submit(venue, b, order).error.None?
    requires !order.kind.IsStop()
    ensures Submit(venue, b, order).log != []
    ensures var report, after := ReportOf(Submit(venue, b, order).log), Submit(venue, b, order).book;
            var rested := if order.side == Bid then b.asks else b.bids;
            var rests := if order.side == Bid then after.asks else after.bids;
            report.triggered == [] ==>
              && (forall i, j :: 0 <= i < j < |report.cancelled| ==> report.cancelled[i] != report.cancelled[j])
              && (id in report.cancelled <==>
                  exists m :: Resting(rested, m) && m.id == id && m.client == order.client && id !in Ids(rests))
              && (id in report.cancelled && FromSequence(b.nextSeq) !in LiveIds(b) ==> id !in LiveIds(after))
  {
    hide Submit, WellFormed, LiveIds, StopsInTurn, TurnTold, NobodyInLine, MakersTold, FokTold, BookStocked, Signed,
      PricedFor, RemainderTold, Resting, Ids;
    SubmissionIsTold(venue, b, order);
    var report, after := ReportOf(Submit(venue, b, order).log), Submit(venue, b, order).book;
    var books :| Story(b, order, report, after, books);
    if report.triggered == [] {
      assert report.(triggered := []) == report;
      var start, minted := b.(nextSeq := b.nextSeq + 1), order.(id := FromSequence(b.nextSeq));
      assert Executed(start, minted, report, after);
      if id in report.cancelled && minted.id !in LiveIds(b) {
        NoIdTwice(venue.spec, b);
        GoneIsDead(start, minted, report, after, id);
      }
    }
  }

  // ------------------------------------------------------------ fired stops

  /** A stop that fires keeps its terms: only a good-till-cancelled stop-limit can
      leave anything resting, and that is what it did not trade, at its own limit. */
  lemma FiredStopKeepsItsTerms(before: Book, s: Order, mid: Book, now: Order, report: Report, after: Book, o: Order)
    requires TurnOf(before, s, mid, now, report, after)
    requires Resting(Beside(after, s.side), o) && !Resting(Beside(before, s.side), o)
    ensures s.kind.StopLimit? && s.kind.tif == GTC
    ensures o.id == s.id && o.client == s.client && o.kind == Limit(s.kind.price, GTC)
    ensures o.remaining > 0 && o.remaining + Traded(report.trades) == s.remaining
  {
    hide Resting, MakersTold, CancelledTold, FokTold, Signed, PricedFor, BookStocked, NextInLine, IsParked;
  }

  /** The stop book only shrinks along a cascade. */
  lemma {:induction false} NobodyParksAgain(books: seq<Book>, reports: seq<Report>, i: nat, j: nat, s: Order)
    requires Trail(books, reports) && i <= j < |books| && IsParked(books[j], s)
    ensures IsParked(books[i], s)
    decreases j - i
  {
    hide IsParked, NextInLine, Handled, FokTold, BookStocked;
    if i < j {
      assert TurnTold(books[j - 1], reports[j - 1], books[j]);
      TurnTakesOne(books[j - 1], reports[j - 1], books[j], s);
      NobodyParksAgain(books, reports, i, j - 1, s);
    }
  }

  /** Nobody shares the front of the line. */
  lemma OneInLine(b: Book, s: Order, t: Order)
    requires NextInLine(b, s) && NextInLine(b, t)
    ensures s == t
  {
    hide Resting;
  }

  lemma TurnTakesOne(before: Book, report: Report, after: Book, s: Order)
    requires TurnTold(before, report, after)
    ensures IsParked(after, s) ==> IsParked(before, s) && !NextInLine(before, s)
    ensures IsParked(before, s) && !NextInLine(before, s) ==> IsParked(after, s)
    ensures NextInLine(before, s) ==> report.orderId == s.id
  {
    hide Resting, MakersTold, CancelledTold, FokTold, Signed, PricedFor, BookStocked, RemainderTold;
    var fired, mid, now :| TurnOf(before, fired, mid, now, report, after);
    if NextInLine(before, s) {
      OneInLine(before, s, fired);
    }
  }

  /** Which parked stops a submission leaves parked: exactly those that are next in
      line at no turn of its cascade. */
  lemma StopStaysExactlyWhen(books: seq<Book>, reports: seq<Report>, s: Order)
    requires Trail(books, reports) && IsParked(books[0], s)
    ensures IsParked(books[|books| - 1], s) <==> forall i :: 0 <= i < |reports| ==> !NextInLine(books[i], s)
  {
    hide IsParked, NextInLine, TurnTold;
    if IsParked(books[|books| - 1], s) {
      forall i | 0 <= i < |reports|
        ensures !NextInLine(books[i], s)
      {
        NobodyParksAgain(books, reports, i + 1, |reports|, s);
        assert TurnTold(books[i], reports[i], books[i + 1]);
        TurnTakesOne(books[i], reports[i], books[i + 1], s);
      }
    }
    if forall i :: 0 <= i < |reports| ==> !NextInLine(books[i], s) {
      StaysUntil(books, reports, |reports|, s);
    }
  }

  lemma {:induction false} StaysUntil(books: seq<Book>, reports: seq<Report>, n: nat, s: Order)
    requires Trail(books, reports) && IsParked(books[0], s) && n <= |reports|
    requires forall i :: 0 <= i < n ==> !NextInLine(books[i], s)
    ensures IsParked(books[n], s)
  {
    hide IsParked, NextInLine, TurnTold;
    if n > 0 {
      StaysUntil(books, reports, n - 1, s);
      assert TurnTold(books[n - 1], reports[n - 1], books[n]);
      TurnTakesOne(books[n - 1], reports[n - 1], books[n], s);
    }
  }

  lemma FirstTakesNoStop(b: Book, order: Order, report: Report, after: Book, s: Order)
    requires FirstTold(b, order, report, after) && IsParked(b, s)
    ensures IsParked(after, s)
  {
    hide Resting, MakersTold, CancelledTold, FokTold, Signed, PricedFor, BookStocked, RemainderTold, Reached;
  }

  /** Which stops a submission sets off. `books` are the books after the order's own
      execution and after each triggered one. Whoever is next in line fires at each
      turn; a stop parked before stays if and only if it is next in line at none;
      nobody whose trigger the last price reaches stays. A stop that the order's own
      last print reached is left behind only when the cascade's own prints end where
      they no longer reach it. */
  lemma SubmitFiresStops(venue: Venue, b: Book, order: Order, s: Order) returns (books: seq<Book>)
    requires Ready(venue, b) && Whole(venue, order) && StopsInTurn(b) && Submit(venue, b, order).error.None?
    requires IsParked(b, s)
    ensures Submit(venue, b, order).log != []
    ensures var report, after := ReportOf(Submit(venue, b, order).log), Submit(venue, b, order).book;
            && |books| == |report.triggered| + 1 && books[|books| - 1] == after
            && books[0].last == LastOn(b.last, report.trades)
            && (IsParked(after, s) <==> forall i :: 0 <= i < |report.triggered| ==> !NextInLine(books[i], s))
            && (forall i :: 0 <= i < |report.triggered| && NextInLine(books[i], s) ==>
                  report.triggered[i].orderId == s.id)
            && (IsParked(after, s) ==> !Reached(after.last, s))
            && (NextInLine(books[0], s) ==>
                  report.triggered != [] && report.triggered[0].orderId == s.id && !IsParked(after, s))
            && (Reached(books[0].last, s) && IsParked(after, s) ==>
                  var prints := Tape([], report.triggered);
                  prints != [] && !Reached(Some(prints[|prints| - 1].price), s))
  {
    hide Submit, WellFormed, LiveIds, StopsInTurn, TurnTold, FirstTold, NextInLine, IsParked, Reached, LastOn, Tape;
    SubmissionIsTold(venue, b, order);
    var report, after := ReportOf(Submit(venue, b, order).log), Submit(venue, b, order).book;
    books :| Story(b, order, report, after, books);
    FirstMovesLast(b, order, report.(triggered := []), books[0]);
    FirstTakesNoStop(b, order, report.(triggered := []), books[0], s);
    StopStaysExactlyWhen(books, report.triggered, s);
    forall i | 0 <= i < |report.triggered| && NextInLine(books[i], s)
      ensures report.triggered[i].orderId == s.id
    {
      assert TurnTold(books[i], report.triggered[i], books[i + 1]);
      TurnTakesOne(books[i], report.triggered[i], books[i + 1], s);
    }
    if NextInLine(books[0], s) {
      InLineIsReached(books[0], s);
    }
    NoTape(books[0].last);
    TrailKeepsLast(books, report.triggered, books[0].last, []);
    TapeEnds(books[0].last, Tape([], report.triggered));
  }

  lemma NoTape(last: Option<Price>)
    ensures last == LastOn(last, [])
  {}

  lemma TapeEnds(last: Option<Price>, tape: seq<Trade>)
    ensures LastOn(last, tape) == if tape == [] then last else Some(tape[|tape| - 1].price)
  {}

  lemma InLineIsReached(b: Book, s: Order)
    requires NextInLine(b, s)
    ensures IsParked(b, s) && Reached(b.last, s)
  {}
}
