/**
 * The single-side ladder and the two-sided book, with the listener they
 * report to modelled as a ghost log of events.
 */
module Ladders {
  import opened Common
  import opened Util
  import opened Levels
  import Updates

  /** The listener a ladder reports to; it records every event, in order. */
  class Listener {
    ghost var events: seq<Event>

    constructor ()
      ensures events == []
    {
      events := [];
    }

    ghost method OnAdd(side: Side, level: PriceLevel)
      modifies this
      ensures events == old(events) + [Add(side, level)]
    {
      events := events + [Add(side, level)];
    }

    ghost method OnUpdate(side: Side, before: PriceLevel, after: PriceLevel)
      modifies this
      ensures events == old(events) + [Update(side, before, after)]
    {
      events := events + [Update(side, before, after)];
    }

    ghost method OnRemove(side: Side, level: PriceLevel)
      modifies this
      ensures events == old(events) + [Remove(side, level)]
    {
      events := events + [Remove(side, level)];
    }
  }

  /** One side of the book: levels stored worst first, so the best level is the last one. */
  class Ladder {
    const side: Side
    const listener: Listener
    var inBatch: bool
    var levels: seq<PriceLevel>

    ghost predicate Valid()
      reads this
    {
      Sorted(side, levels)
    }

    constructor (side: Side, listener: Listener)
      ensures this.side == side && this.listener == listener
      ensures levels == [] && !inBatch
      ensures Valid()
    {
      this.side := side;
      this.listener := listener;
      inBatch := false;
      levels := [];
    }

    /** The levels from the best to the worst. */
    function Iter(): (r: seq<PriceLevel>)
      reads this
      ensures |r| == |levels|
      ensures forall i :: 0 <= i < |r| ==> r[i] == levels[|levels| - 1 - i]
      ensures Valid() ==> forall i, j :: 0 <= i < j < |r| ==> Worse(side, r[j].price, r[i].price)
    {
      Reversed(levels)
    }

    function Count(): (n: nat)
      reads this
      ensures n == |Iter()|
      ensures n == 0 <==> Best().None?
    {
      |levels|
    }

    /** The level at the touch: every other level is worse. */
    function Best(): (r: Option<PriceLevel>)
      reads this
      ensures r.None? <==> levels == []
      ensures r.Some? ==> r.value in levels
      ensures r.Some? && Valid() ==> forall i :: 0 <= i < |levels| - 1 ==> Worse(side, levels[i].price, r.value.price)
    {
      if |levels| > 0 then Some(levels[|levels| - 1]) else None
    }

    /** The level furthest from the touch: every other level is better. */
    function Worst(): (r: Option<PriceLevel>)
      reads this
      ensures r.None? <==> levels == []
      ensures r.Some? ==> r.value in levels
      ensures r.Some? && Valid() ==> forall i :: 0 < i < |levels| ==> Worse(side, r.value.price, levels[i].price)
    {
      if |levels| > 0 then Some(levels[0]) else None
    }

    /** The level `idx` places away from the best. */
    function Get(idx: nat): (r: Option<PriceLevel>)
      reads this
      requires idx < |levels|
      ensures r == Some(Iter()[idx])
      ensures idx == 0 ==> r == Best()
      ensures idx == |levels| - 1 ==> r == Worst()
    {
      Some(levels[|levels| - 1 - idx])
    }

    method Begin()
      requires !inBatch
      modifies this`inBatch
      ensures inBatch
    {
      inBatch := true;
    }

    method End()
      requires inBatch
      modifies this`inBatch
      ensures !inBatch
    {
      inBatch := false;
    }

    /** The linear search policy: walks down from the touch. */
    method FindLinear(price: Decimal64) returns (r: FindResult)
      requires Valid()
      ensures r == Find(side, levels, price)
    {
      if |levels| == 0 {
        return Absent(0);
      }
      var i: int := |levels| - 1;
      while i >= 0
        invariant -1 <= i < |levels|
        invariant forall k :: i < k < |levels| ==> Worse(side, price, levels[k].price)
        decreases i
      {
        var cmp := Compare(side, price, levels[i].price).Reverse();
        if cmp == Equal {
          r := Found(i);
          LocatesUnique(side, levels, price, r, Find(side, levels, price));
          return;
        } else if cmp == Greater {
          i := i - 1;
        } else {
          r := Absent(i + 1);
          LocatesUnique(side, levels, price, r, Find(side, levels, price));
          return;
        }
      }
      r := Absent(0);
      LocatesUnique(side, levels, price, r, Find(side, levels, price));
    }

    /** Reports every level from `from` to the touch as removed, in index order. */
    method NotifyRemovals(from: nat)
      requires from <= |levels|
      modifies listener
      ensures listener.events == old(listener.events) + Removals(side, levels[from..])
    {
      for i := from to |levels|
        invariant listener.events == old(listener.events) + Removals(side, levels[from..i])
      {
        listener.OnRemove(side, levels[i]);
        RemovalsSnoc(side, levels[from..i], levels[i]);
        assert levels[from..i + 1] == levels[from..i] + [levels[i]];
      }
    }

    method AddOrUpdate(price: Decimal64, qty: Decimal64, orders: U16)
      requires Valid() && inBatch
      modifies this`levels, listener
      ensures Valid()
      ensures levels == Updates.AddOrUpdate(side, old(levels), price, qty, orders).levels
      ensures listener.events == old(listener.events) + Updates.AddOrUpdate(side, old(levels), price, qty, orders).events
    {
      match Find(side, levels, price)
      case Found(pos) =>
        if qty == 0 {
          listener.OnRemove(side, levels[pos]);
          levels := levels[..pos] + levels[pos + 1..];
        } else if levels[pos].qty != qty {
          var was := levels[pos];
          levels := levels[pos := was.(qty := qty, orders := orders)];
          listener.OnUpdate(side, was, levels[pos]);
        }
      case Absent(pos) =>
        if qty > 0 {
          var level := PriceLevel(price, qty, orders);
          levels := levels[..pos] + [level] + levels[pos..];
          listener.OnAdd(side, level);
        }
    }

    /** Discards every level without reporting any; needs no batch. */
    method Clear()
      modifies this`levels
      ensures levels == [] && Valid()
    {
      levels := [];
    }

    method RemoveLevelsBefore(price: Decimal64)
      requires Valid() && inBatch
      modifies this`levels, listener
      ensures Valid()
      ensures levels == Updates.RemoveLevelsBefore(side, old(levels), price).levels
      ensures listener.events == old(listener.events) + Updates.RemoveLevelsBefore(side, old(levels), price).events
    {
      var pos := Find(side, levels, price).pos;
      NotifyRemovals(pos);
      levels := levels[..pos];
    }

    method ApplyTrade(price: Decimal64, qty: Decimal64)
      requires Valid() && inBatch
      modifies this`levels, listener
      ensures Valid()
      ensures levels == Updates.ApplyTrade(side, old(levels), price, qty).levels
      ensures listener.events == old(listener.events) + Updates.ApplyTrade(side, old(levels), price, qty).events
    {
      var result := Find(side, levels, price);
      var pos := result.pos;
      var offset: nat;
      if result.Found? {
        offset := if pos + 1 >= |levels| - 1 then pos + 1 else |levels| - 1;
        NotifyRemovals(offset);
        ghost var crossed := listener.events;
        if qty >= levels[pos].qty {
          listener.OnRemove(side, levels[pos]);
          offset := offset - 1;
          assert listener.events == crossed + [Remove(side, levels[pos])];
        } else {
          var was := levels[pos];
          levels := levels[pos := was.(qty := qty)];
          listener.OnUpdate(side, was, levels[pos]);
          assert listener.events == crossed + [Update(side, was, was.(qty := qty))];
        }
      } else {
        offset := pos;
        NotifyRemovals(offset);
      }
      levels := levels[..offset];
    }
  }

  /** A bids ladder and an asks ladder that report to one listener. */
  class Book {
    const bids: Ladder
    const asks: Ladder

    ghost predicate Valid()
      reads this, bids, asks
    {
      && bids != asks
      && bids.side == Buy && asks.side == Sell
      && bids.listener == asks.listener
      && bids.Valid() && asks.Valid()
      && bids.inBatch == asks.inBatch
    }

    constructor (listener: Listener)
      ensures Valid() && fresh(bids) && fresh(asks)
      ensures bids.listener == listener
      ensures bids.levels == [] && asks.levels == []
      ensures !bids.inBatch && !asks.inBatch
    {
      bids := new Ladder(Buy, listener);
      asks := new Ladder(Sell, listener);
    }

    method Begin()
      requires Valid() && !bids.inBatch
      modifies bids`inBatch, asks`inBatch
      ensures Valid() && bids.inBatch && asks.inBatch
    {
      bids.Begin();
      asks.Begin();
    }

    method End()
      requires Valid() && bids.inBatch
      modifies bids`inBatch, asks`inBatch
      ensures Valid() && !bids.inBatch && !asks.inBatch
    {
      bids.End();
      asks.End();
    }

    method Clear()
      requires Valid()
      modifies bids`levels, asks`levels
      ensures Valid() && bids.levels == [] && asks.levels == []
    {
      bids.Clear();
      asks.Clear();
    }

    method RemoveLevelsBeforeAsk(price: Decimal64)
      requires Valid() && asks.inBatch
      modifies asks`levels, asks.listener
      ensures Valid() && bids.levels == old(bids.levels)
      ensures asks.levels == Updates.RemoveLevelsBefore(Sell, old(asks.levels), price).levels
      ensures asks.listener.events == old(asks.listener.events) + Updates.RemoveLevelsBefore(Sell, old(asks.levels), price).events
    {
      asks.RemoveLevelsBefore(price);
    }

    method RemoveLevelsBeforeBid(price: Decimal64)
      requires Valid() && bids.inBatch
      modifies bids`levels, bids.listener
      ensures Valid() && asks.levels == old(asks.levels)
      ensures bids.levels == Updates.RemoveLevelsBefore(Buy, old(bids.levels), price).levels
      ensures bids.listener.events == old(bids.listener.events) + Updates.RemoveLevelsBefore(Buy, old(bids.levels), price).events
    {
      bids.RemoveLevelsBefore(price);
    }

    method UpdateAsk(price: Decimal64, qty: Decimal64, orders: U16)
      requires Valid() && asks.inBatch
      modifies asks`levels, asks.listener
      ensures Valid() && bids.levels == old(bids.levels)
      ensures asks.levels == Updates.AddOrUpdate(Sell, old(asks.levels), price, qty, orders).levels
      ensures asks.listener.events == old(asks.listener.events) + Updates.AddOrUpdate(Sell, old(asks.levels), price, qty, orders).events
    {
      asks.AddOrUpdate(price, qty, orders);
    }

    method UpdateBid(price: Decimal64, qty: Decimal64, orders: U16)
      requires Valid() && bids.inBatch
      modifies bids`levels, bids.listener
      ensures Valid() && asks.levels == old(asks.levels)
      ensures bids.levels == Updates.AddOrUpdate(Buy, old(bids.levels), price, qty, orders).levels
      ensures bids.listener.events == old(bids.listener.events) + Updates.AddOrUpdate(Buy, old(bids.levels), price, qty, orders).events
    {
      bids.AddOrUpdate(price, qty, orders);
    }

    /** `isBuyerMaker` names the side that was resting: the bids when true, the asks otherwise. */
    method ApplyTrade(price: Decimal64, qty: Decimal64, isBuyerMaker: bool)
      requires Valid() && (if isBuyerMaker then bids.inBatch else asks.inBatch)
      modifies bids`levels, asks`levels, bids.listener
      ensures Valid()
      ensures var ladder := if isBuyerMaker then bids else asks;
        var other := if isBuyerMaker then asks else bids;
        && ladder.levels == Updates.ApplyTrade(ladder.side, old(ladder.levels), price, qty).levels
        && bids.listener.events == old(bids.listener.events) + Updates.ApplyTrade(ladder.side, old(ladder.levels), price, qty).events
        && other.levels == old(other.levels)
    {
      if isBuyerMaker {
        bids.ApplyTrade(price, qty);
      } else {
        asks.ApplyTrade(price, qty);
      }
    }
  }
}
