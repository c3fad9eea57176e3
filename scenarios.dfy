/** The book's own test scenarios, stated as methods whose results are proved. */
module Scenarios {
  import opened Common
  import opened Levels
  import opened Ladders
  import Updates

  /** The Bids ladder after each of the four insertions. */
  lemma BidsBuilt()
    ensures Updates.AddOrUpdate(Buy, [], 7, 99, 0).levels == [PriceLevel(7, 99, 0)]
    ensures Updates.AddOrUpdate(Buy, [PriceLevel(7, 99, 0)], 8, 100, 0).levels == [PriceLevel(7, 99, 0), PriceLevel(8, 100, 0)]
    ensures Updates.AddOrUpdate(Buy, [PriceLevel(7, 99, 0), PriceLevel(8, 100, 0)], 6, 98, 0).levels == [PriceLevel(6, 98, 0), PriceLevel(7, 99, 0), PriceLevel(8, 100, 0)]
    ensures Updates.AddOrUpdate(Buy, [PriceLevel(6, 98, 0), PriceLevel(7, 99, 0), PriceLevel(8, 100, 0)], 9, 101, 0).levels == [PriceLevel(6, 98, 0), PriceLevel(7, 99, 0), PriceLevel(8, 100, 0), PriceLevel(9, 101, 0)]
  {
  }

  /** Zeroing the second-worst bid deletes it and keeps the other three. */
  lemma BidsDeleted()
    ensures Updates.AddOrUpdate(Buy, [PriceLevel(6, 98, 0), PriceLevel(7, 99, 0), PriceLevel(8, 100, 0), PriceLevel(9, 101, 0)], 7, 0, 0).levels == [PriceLevel(6, 98, 0), PriceLevel(8, 100, 0), PriceLevel(9, 101, 0)]
  {
    var four := [PriceLevel(6, 98, 0), PriceLevel(7, 99, 0), PriceLevel(8, 100, 0), PriceLevel(9, 101, 0)];
    Updates.AddOrUpdateExisting(Buy, four, 1, 0, 0);
    assert four[..1] + four[2..] == [PriceLevel(6, 98, 0), PriceLevel(8, 100, 0), PriceLevel(9, 101, 0)];
  }

  /** A new quantity for the best bid overwrites it in place. */
  lemma BidsRaised()
    ensures Updates.AddOrUpdate(Buy, [PriceLevel(6, 98, 0), PriceLevel(8, 100, 0), PriceLevel(9, 101, 0)], 9, 200, 0).levels == [PriceLevel(6, 98, 0), PriceLevel(8, 100, 0), PriceLevel(9, 200, 0)]
  {
    Updates.AddOrUpdateExisting(Buy, [PriceLevel(6, 98, 0), PriceLevel(8, 100, 0), PriceLevel(9, 101, 0)], 2, 200, 0);
  }

  /** The Asks ladder after each of the four insertions. */
  lemma AsksBuilt()
    ensures Updates.AddOrUpdate(Sell, [], 13, 99, 0).levels == [PriceLevel(13, 99, 0)]
    ensures Updates.AddOrUpdate(Sell, [PriceLevel(13, 99, 0)], 11, 100, 0).levels == [PriceLevel(13, 99, 0), PriceLevel(11, 100, 0)]
    ensures Updates.AddOrUpdate(Sell, [PriceLevel(13, 99, 0), PriceLevel(11, 100, 0)], 12, 98, 0).levels == [PriceLevel(13, 99, 0), PriceLevel(12, 98, 0), PriceLevel(11, 100, 0)]
    ensures Updates.AddOrUpdate(Sell, [PriceLevel(13, 99, 0), PriceLevel(12, 98, 0), PriceLevel(11, 100, 0)], 10, 101, 0).levels == [PriceLevel(13, 99, 0), PriceLevel(12, 98, 0), PriceLevel(11, 100, 0), PriceLevel(10, 101, 0)]
  {
  }

  /** Zeroing the second-worst ask deletes it and keeps the other three. */
  lemma AsksDeleted()
    ensures Updates.AddOrUpdate(Sell, [PriceLevel(13, 99, 0), PriceLevel(12, 98, 0), PriceLevel(11, 100, 0), PriceLevel(10, 101, 0)], 12, 0, 0).levels == [PriceLevel(13, 99, 0), PriceLevel(11, 100, 0), PriceLevel(10, 101, 0)]
  {
    var four := [PriceLevel(13, 99, 0), PriceLevel(12, 98, 0), PriceLevel(11, 100, 0), PriceLevel(10, 101, 0)];
    Updates.AddOrUpdateExisting(Sell, four, 1, 0, 0);
    assert four[..1] + four[2..] == [PriceLevel(13, 99, 0), PriceLevel(11, 100, 0), PriceLevel(10, 101, 0)];
  }

  /** A new quantity for the best ask overwrites it in place. */
  lemma AsksRaised()
    ensures Updates.AddOrUpdate(Sell, [PriceLevel(13, 99, 0), PriceLevel(11, 100, 0), PriceLevel(10, 101, 0)], 10, 200, 0).levels == [PriceLevel(13, 99, 0), PriceLevel(11, 100, 0), PriceLevel(10, 200, 0)]
  {
    Updates.AddOrUpdateExisting(Sell, [PriceLevel(13, 99, 0), PriceLevel(11, 100, 0), PriceLevel(10, 101, 0)], 2, 200, 0);
  }

  /** A new book has two empty ladders, neither in a batch. */
  method InitializeBook() returns (bidCount: nat, askCount: nat, bidBest: Option<PriceLevel>, bidWorst: Option<PriceLevel>,
                                   askBest: Option<PriceLevel>, askWorst: Option<PriceLevel>, inBatch: bool)
    ensures bidCount == 0 && askCount == 0
    ensures bidBest == None && bidWorst == None
    ensures askBest == None && askWorst == None
    ensures !inBatch
  {
    var listener := new Listener();
    var book := new Book(listener);
    bidCount, askCount := book.bids.Count(), book.asks.Count();
    bidBest, bidWorst := book.bids.Best(), book.bids.Worst();
    askBest, askWorst := book.asks.Best(), book.asks.Worst();
    inBatch := book.bids.inBatch || book.asks.inBatch;
  }

  /** Bids 7/99, 8/100, 6/98, 9/101; then price 7 deleted and price 9 raised to 200. */
  method AddBids() returns (count: nat, best: Option<PriceLevel>, worst: Option<PriceLevel>, order: seq<PriceLevel>,
                            laterCount: nat, laterBest: Option<PriceLevel>)
    ensures count == 4
    ensures best == Some(PriceLevel(9, 101, 0)) && worst == Some(PriceLevel(6, 98, 0))
    ensures order == [PriceLevel(9, 101, 0), PriceLevel(8, 100, 0), PriceLevel(7, 99, 0), PriceLevel(6, 98, 0)]
    ensures laterCount == 3 && laterBest == Some(PriceLevel(9, 200, 0))
  {
    var listener := new Listener();
    var book := new Book(listener);
    book.Begin();
    BidsBuilt();
    book.UpdateBid(7, 99, 0);
    assert book.bids.levels == [PriceLevel(7, 99, 0)];
    book.UpdateBid(8, 100, 0);
    assert book.bids.levels == [PriceLevel(7, 99, 0), PriceLevel(8, 100, 0)];
    book.UpdateBid(6, 98, 0);
    assert book.bids.levels == [PriceLevel(6, 98, 0), PriceLevel(7, 99, 0), PriceLevel(8, 100, 0)];
    book.UpdateBid(9, 101, 0);
    assert book.bids.levels == [PriceLevel(6, 98, 0), PriceLevel(7, 99, 0), PriceLevel(8, 100, 0), PriceLevel(9, 101, 0)];
    book.End();
    count, best, worst := book.bids.Count(), book.bids.Best(), book.bids.Worst();
    order := [book.bids.Get(0).value, book.bids.Get(1).value, book.bids.Get(2).value, book.bids.Get(3).value];

    book.Begin();
    BidsDeleted();
    BidsRaised();
    book.UpdateBid(7, 0, 0);
    assert book.bids.levels == [PriceLevel(6, 98, 0), PriceLevel(8, 100, 0), PriceLevel(9, 101, 0)];
    book.UpdateBid(9, 200, 0);
    assert book.bids.levels == [PriceLevel(6, 98, 0), PriceLevel(8, 100, 0), PriceLevel(9, 200, 0)];
    book.End();
    laterCount, laterBest := book.bids.Count(), book.bids.Best();
  }

  /** Asks 13/99, 11/100, 12/98, 10/101; then price 12 deleted and price 10 raised to 200. */
  method AddAsks() returns (count: nat, best: Option<PriceLevel>, worst: Option<PriceLevel>, order: seq<PriceLevel>,
                            laterCount: nat, laterBest: Option<PriceLevel>)
    ensures count == 4
    ensures best == Some(PriceLevel(10, 101, 0)) && worst == Some(PriceLevel(13, 99, 0))
    ensures order == [PriceLevel(10, 101, 0), PriceLevel(11, 100, 0), PriceLevel(12, 98, 0), PriceLevel(13, 99, 0)]
    ensures laterCount == 3 && laterBest == Some(PriceLevel(10, 200, 0))
  {
    var listener := new Listener();
    var book := new Book(listener);
    book.Begin();
    AsksBuilt();
    book.UpdateAsk(13, 99, 0);
    assert book.asks.levels == [PriceLevel(13, 99, 0)];
    book.UpdateAsk(11, 100, 0);
    assert book.asks.levels == [PriceLevel(13, 99, 0), PriceLevel(11, 100, 0)];
    book.UpdateAsk(12, 98, 0);
    assert book.asks.levels == [PriceLevel(13, 99, 0), PriceLevel(12, 98, 0), PriceLevel(11, 100, 0)];
    book.UpdateAsk(10, 101, 0);
    assert book.asks.levels == [PriceLevel(13, 99, 0), PriceLevel(12, 98, 0), PriceLevel(11, 100, 0), PriceLevel(10, 101, 0)];
    book.End();
    count, best, worst := book.asks.Count(), book.asks.Best(), book.asks.Worst();
    order := [book.asks.Get(0).value, book.asks.Get(1).value, book.asks.Get(2).value, book.asks.Get(3).value];

    book.Begin();
    AsksDeleted();
    AsksRaised();
    book.UpdateAsk(12, 0, 0);
    assert book.asks.levels == [PriceLevel(13, 99, 0), PriceLevel(11, 100, 0), PriceLevel(10, 101, 0)];
    book.UpdateAsk(10, 200, 0);
    assert book.asks.levels == [PriceLevel(13, 99, 0), PriceLevel(11, 100, 0), PriceLevel(10, 200, 0)];
    book.End();
    laterCount, laterBest := book.asks.Count(), book.asks.Best();
  }
}
