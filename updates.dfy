/**
 * The three ladder mutations as functions from the old levels to the new levels
 * and the events reported on the way, in the order they are reported.
 */
module Updates {
  import opened Common
  import opened Util
  import opened Levels

  datatype Change = Change(levels: seq<PriceLevel>, events: seq<Event>)

  /**
   * A feed update for one price: a zero quantity deletes the level, another
   * quantity overwrites it, a new price with a positive quantity is inserted.
   */
  function AddOrUpdate(side: Side, levels: seq<PriceLevel>, price: Decimal64, qty: Decimal64, orders: U16): (c: Change)
    requires Sorted(side, levels)
    ensures Sorted(side, c.levels)
  {
    match Find(side, levels, price)
    case Found(pos) =>
      if qty == 0 then
        SortedRemoveAt(side, levels, pos);
        Change(levels[..pos] + levels[pos + 1..], [Remove(side, levels[pos])])
      else if levels[pos].qty != qty then
        var updated := levels[pos].(qty := qty, orders := orders);
        Change(levels[pos := updated], [Update(side, levels[pos], updated)])
      else
        Change(levels, [])
    case Absent(pos) =>
      if qty > 0 then
        var added := PriceLevel(price, qty, orders);
        SortedInsertAt(side, levels, added, pos);
        Change(levels[..pos] + [added] + levels[pos..], [Add(side, added)])
      else
        Change(levels, [])
  }

  /** Drops the level at `price`, if any, and every level better than it. */
  function RemoveLevelsBefore(side: Side, levels: seq<PriceLevel>, price: Decimal64): (c: Change)
    requires Sorted(side, levels)
    ensures Sorted(side, c.levels)
    ensures |c.levels| <= |levels| && c.levels == levels[..|c.levels|]
  {
    var pos := Find(side, levels, price).pos;
    Change(levels[..pos], Removals(side, levels[pos..]))
  }

  /**
   * A trade against the resting side, with the boundary arithmetic of the source:
   * `offset` is the larger of `pos + 1` and `len - 1`, a full fill reports the
   * matched level and lowers `offset` by one, a partial fill writes the traded
   * quantity into the level, and the ladder is then cut to `offset` levels.
   */
  function ApplyTrade(side: Side, levels: seq<PriceLevel>, price: Decimal64, qty: Decimal64): (c: Change)
    requires Sorted(side, levels)
    ensures Sorted(side, c.levels)
    ensures |c.levels| <= |levels|
    ensures forall i :: 0 <= i < |c.levels| ==> c.levels[i] == levels[i] || c.levels[i] == levels[i].(qty := qty)
  {
    match Find(side, levels, price)
    case Found(pos) =>
      var offset := if pos + 1 >= |levels| - 1 then pos + 1 else |levels| - 1;
      var crossed := Removals(side, levels[offset..]);
      if qty >= levels[pos].qty then
        Change(levels[..offset - 1], crossed + [Remove(side, levels[pos])])
      else
        var filled := levels[pos].(qty := qty);
        Change(levels[pos := filled][..offset], crossed + [Update(side, levels[pos], filled)])
    case Absent(pos) =>
      Change(levels[..pos], Removals(side, levels[pos..]))
  }

  /** An update for a price the ladder holds, in its three cases; every other level is kept as it was. */
  lemma AddOrUpdateExisting(side: Side, levels: seq<PriceLevel>, i: nat, qty: Decimal64, orders: U16)
    requires Sorted(side, levels) && i < |levels|
    ensures var was := levels[i];
      var c := AddOrUpdate(side, levels, was.price, qty, orders);
      var written := PriceLevel(was.price, qty, orders);
      && (qty == 0 ==>
            && c.levels == levels[..i] + levels[i + 1..]
            && |c.levels| == |levels| - 1
            && (forall l :: l in c.levels <==> l in levels && l != was)
            && c.events == [Remove(side, was)])
      && (qty != 0 && qty != was.qty ==>
            && c.levels == levels[i := written]
            && c.events == [Update(side, was, written)])
      && (qty != 0 && qty == was.qty ==> c == Change(levels, []))
  {
    FindFound(side, levels, levels[i].price, i);
    SortedRemoveAt(side, levels, i);
  }

  /** An update for a price the ladder does not hold inserts it only with a positive quantity. */
  lemma AddOrUpdateAbsent(side: Side, levels: seq<PriceLevel>, price: Decimal64, qty: Decimal64, orders: U16)
    requires Sorted(side, levels)
    requires forall k :: 0 <= k < |levels| ==> levels[k].price != price
    ensures var c := AddOrUpdate(side, levels, price, qty, orders);
      var written := PriceLevel(price, qty, orders);
      && (qty > 0 ==>
            && |c.levels| == |levels| + 1
            && (forall l :: l in c.levels <==> l in levels || l == written)
            && c.events == [Add(side, written)])
      && (qty <= 0 ==> c == Change(levels, []))
  {
    FindAbsent(side, levels, price);
    var r := Find(side, levels, price);
    if qty > 0 {
      SortedInsertAt(side, levels, PriceLevel(price, qty, orders), r.pos);
    }
  }

  /**
   * The insertion lands where the order demands: the new ladder is the one
   * sorted sequence that holds the old levels and the added one.
   */
  lemma AddOrUpdateInsertsInOrder(side: Side, levels: seq<PriceLevel>, price: Decimal64, qty: Decimal64, orders: U16,
                                  expected: seq<PriceLevel>)
    requires Sorted(side, levels) && Sorted(side, expected) && qty > 0
    requires forall k :: 0 <= k < |levels| ==> levels[k].price != price
    requires forall l :: l in expected <==> l in levels || l == PriceLevel(price, qty, orders)
    ensures AddOrUpdate(side, levels, price, qty, orders).levels == expected
  {
    AddOrUpdateAbsent(side, levels, price, qty, orders);
    SortedDetermined(side, AddOrUpdate(side, levels, price, qty, orders).levels, expected);
  }

  /** A new level better than every stored one becomes the best level. */
  lemma AddOrUpdateNewBest(side: Side, levels: seq<PriceLevel>, price: Decimal64, qty: Decimal64, orders: U16)
    requires Sorted(side, levels) && qty > 0
    requires forall k :: 0 <= k < |levels| ==> Worse(side, levels[k].price, price)
    ensures var c := AddOrUpdate(side, levels, price, qty, orders);
      c.levels == levels + [PriceLevel(price, qty, orders)]
  {
    var r := Find(side, levels, price);
    assert r == Absent(|levels|) by {
      LocatesUnique(side, levels, price, r, Absent(|levels|));
    }
  }

  /** Zero quantities never reach the ladder: with a non-negative quantity the update keeps every level positive. */
  lemma AddOrUpdateKeepsPositive(side: Side, levels: seq<PriceLevel>, price: Decimal64, qty: Decimal64, orders: U16)
    requires Sorted(side, levels) && Positive(levels) && qty >= 0
    ensures Positive(AddOrUpdate(side, levels, price, qty, orders).levels)
  {
    var r := Find(side, levels, price);
    var c := AddOrUpdate(side, levels, price, qty, orders);
    if r.Found? && qty == 0 {
      forall k | 0 <= k < |c.levels| ensures c.levels[k].qty > 0 {
        assert c.levels[k] == levels[if k < r.pos then k else k + 1];
      }
    } else if r.Absent? && qty > 0 {
      forall k | 0 <= k < |c.levels| ensures c.levels[k].qty > 0 {
        assert c.levels[k] == if k < r.pos then levels[k] else if k == r.pos then PriceLevel(price, qty, orders) else levels[k - 1];
      }
    }
  }

  /**
   * What survives are exactly the levels strictly worse than `price`; each
   * dropped level is reported once, in index order, ending at the best.
   */
  lemma RemoveLevelsBeforeKeepsWorse(side: Side, levels: seq<PriceLevel>, price: Decimal64)
    requires Sorted(side, levels)
    ensures var c := RemoveLevelsBefore(side, levels, price);
      && (forall l :: l in c.levels <==> l in levels && Worse(side, l.price, price))
      && c.events == Removals(side, levels[|c.levels|..])
  {
    FindSplits(side, levels, price);
    PrefixIsWorse(side, levels, price, Find(side, levels, price).pos);
  }

  /** A trade at a price the ladder does not hold drops exactly the levels better than it, each reported. */
  lemma ApplyTradeAbsent(side: Side, levels: seq<PriceLevel>, price: Decimal64, qty: Decimal64)
    requires Sorted(side, levels)
    requires forall k :: 0 <= k < |levels| ==> levels[k].price != price
    ensures var c := ApplyTrade(side, levels, price, qty);
      && c.levels == levels[..|c.levels|]
      && (forall l :: l in c.levels <==> l in levels && Worse(side, l.price, price))
      && c.events == Removals(side, levels[|c.levels|..])
  {
    FindAbsent(side, levels, price);
    FindSplits(side, levels, price);
    PrefixIsWorse(side, levels, price, Find(side, levels, price).pos);
  }

  /**
   * A trade at the best or the second-best level: the better levels are
   * dropped and reported first, then the matched level is removed on a full
   * fill or takes the traded quantity on a partial one.
   */
  lemma ApplyTradeNearTouch(side: Side, levels: seq<PriceLevel>, i: nat, qty: Decimal64)
    requires Sorted(side, levels) && i < |levels| <= i + 2
    ensures var p := levels[i];
      var c := ApplyTrade(side, levels, p.price, qty);
      && (qty >= p.qty ==>
            && (forall l :: l in c.levels <==> l in levels && Worse(side, l.price, p.price))
            && c.events == Removals(side, levels[i + 1..]) + [Remove(side, p)])
      && (qty < p.qty ==>
            && (forall l :: l in c.levels <==> (l in levels && Worse(side, l.price, p.price)) || l == p.(qty := qty))
            && c.events == Removals(side, levels[i + 1..]) + [Update(side, p, p.(qty := qty))])
  {
    var p := levels[i];
    FindFound(side, levels, p.price, i);
    FindSplits(side, levels, p.price);
    PrefixIsWorse(side, levels, p.price, i);
    var c := ApplyTrade(side, levels, p.price, qty);
    if qty < p.qty {
      assert c.levels == levels[..i] + [p.(qty := qty)];
    }
  }

  /**
   * A trade three or more levels below the touch, as the source computes it:
   * a full fill reports the matched level removed but keeps it, and drops the
   * second-best level without a report; a partial fill keeps levels that are
   * strictly better than the trade price.
   */
  lemma ApplyTradeDeep(side: Side, levels: seq<PriceLevel>, i: nat, qty: Decimal64)
    requires Sorted(side, levels) && i + 3 <= |levels|
    ensures var p := levels[i];
      var n := |levels|;
      var c := ApplyTrade(side, levels, p.price, qty);
      && (qty >= p.qty ==>
            && c.levels == levels[..n - 2]
            && c.events == [Remove(side, levels[n - 1]), Remove(side, p)]
            && p in c.levels
            && levels[n - 2] !in c.levels
            && Remove(side, levels[n - 2]) !in c.events)
      && (qty < p.qty ==>
            && c.levels == levels[i := p.(qty := qty)][..n - 1]
            && c.events == [Remove(side, levels[n - 1]), Update(side, p, p.(qty := qty))]
            && levels[i + 1] in c.levels
            && Worse(side, p.price, levels[i + 1].price))
  {
    var p := levels[i];
    var n := |levels|;
    FindFound(side, levels, p.price, i);
    assert levels[n - 1..] == [levels[n - 1]];
    var c := ApplyTrade(side, levels, p.price, qty);
    if qty >= p.qty {
      assert c.levels[i] == p;
      DropBest(side, levels[..n - 1]);
      assert levels[..n - 1][..n - 2] == levels[..n - 2];
    } else {
      assert c.levels[i + 1] == levels[i + 1];
    }
  }

  /** With a positive traded quantity every surviving level stays positive. */
  lemma ApplyTradeKeepsPositive(side: Side, levels: seq<PriceLevel>, price: Decimal64, qty: Decimal64)
    requires Sorted(side, levels) && Positive(levels) && qty > 0
    ensures Positive(ApplyTrade(side, levels, price, qty).levels)
  {
  }
}
