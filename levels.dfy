/**
 * Price levels, listener events and the sorted sequence a ladder keeps:
 * worst level first, best level (the touch) last.
 */
module Levels {
  import opened Common
  import opened Util

  /** One aggregated price level. */
  datatype PriceLevel = PriceLevel(price: Decimal64, qty: Decimal64, orders: U16)

  /** What a ladder reports to its listener, in the order the levels change. */
  datatype Event =
    | Add(side: Side, level: PriceLevel)
    | Update(side: Side, before: PriceLevel, after: PriceLevel)
    | Remove(side: Side, level: PriceLevel)

  /**
   * The ladder invariant: every level is strictly worse than every level after it,
   * so prices are unique, bids ascend and asks descend.
   */
  ghost predicate Sorted(side: Side, levels: seq<PriceLevel>) {
    forall i, j :: 0 <= i < j < |levels| ==> Worse(side, levels[i].price, levels[j].price)
  }

  /** No stored level has a zero or negative quantity. */
  ghost predicate Positive(levels: seq<PriceLevel>) {
    forall i :: 0 <= i < |levels| ==> levels[i].qty > 0
  }

  /** `Ok(pos)` and `Err(pos)` of the search. */
  datatype FindResult = Found(pos: nat) | Absent(pos: nat)

  /** What a search must return: the index of the price, or the index at which it would be inserted. */
  ghost predicate Locates(side: Side, levels: seq<PriceLevel>, price: Decimal64, r: FindResult) {
    match r
    case Found(i) => i < |levels| && levels[i].price == price
    case Absent(i) =>
      && i <= |levels|
      && (forall k :: 0 <= k < i ==> Worse(side, levels[k].price, price))
      && (forall k :: i <= k < |levels| ==> Worse(side, price, levels[k].price))
  }

  /** `pos` separates the levels worse than `price` from the others. */
  ghost predicate SplitsAt(side: Side, levels: seq<PriceLevel>, price: Decimal64, pos: nat) {
    && pos <= |levels|
    && forall k :: 0 <= k < |levels| ==> (k < pos <==> Worse(side, levels[k].price, price))
  }

  /**
   * Binary search of `levels[lo..hi]`, probing with the comparator of `price`
   * against the level, reversed.
   */
  function Search(side: Side, levels: seq<PriceLevel>, price: Decimal64, lo: nat, hi: nat): (r: FindResult)
    requires lo <= hi <= |levels|
    requires Sorted(side, levels)
    requires forall k :: 0 <= k < lo ==> Worse(side, levels[k].price, price)
    requires forall k :: hi <= k < |levels| ==> Worse(side, price, levels[k].price)
    ensures Locates(side, levels, price, r)
    decreases hi - lo
  {
    if lo == hi then Absent(lo)
    else
      var mid := lo + (hi - lo) / 2;
      match Compare(side, price, levels[mid].price).Reverse()
      case Equal => Found(mid)
      case Less => Search(side, levels, price, mid + 1, hi)
      case Greater => Search(side, levels, price, lo, mid)
  }

  /** The binary search policy over the whole ladder. */
  function Find(side: Side, levels: seq<PriceLevel>, price: Decimal64): (r: FindResult)
    requires Sorted(side, levels)
    ensures Locates(side, levels, price, r)
  {
    Search(side, levels, price, 0, |levels|)
  }

  /** On a sorted ladder a search has only one correct answer. */
  lemma LocatesUnique(side: Side, levels: seq<PriceLevel>, price: Decimal64, r1: FindResult, r2: FindResult)
    requires Sorted(side, levels)
    requires Locates(side, levels, price, r1) && Locates(side, levels, price, r2)
    ensures r1 == r2
  {
    if r1.Absent? && r2.Absent? {
      var i, j := r1.pos, r2.pos;
      // A level at the smaller split point would have to be worse than itself.
      if i < |levels| { assert !Worse(side, levels[i].price, levels[i].price); }
      if j < |levels| { assert !Worse(side, levels[j].price, levels[j].price); }
    }
  }

  /** The search finds index `i` exactly when the level there carries the price. */
  lemma FindFound(side: Side, levels: seq<PriceLevel>, price: Decimal64, i: nat)
    requires Sorted(side, levels)
    ensures Find(side, levels, price) == Found(i) <==> i < |levels| && levels[i].price == price
  {
    if i < |levels| && levels[i].price == price {
      LocatesUnique(side, levels, price, Find(side, levels, price), Found(i));
    }
  }

  /** The search reports the price absent exactly when no level carries it. */
  lemma FindAbsent(side: Side, levels: seq<PriceLevel>, price: Decimal64)
    requires Sorted(side, levels)
    ensures Find(side, levels, price).Absent? <==> forall k :: 0 <= k < |levels| ==> levels[k].price != price
  {
    var r := Find(side, levels, price);
    if r.Absent? {
      forall k | 0 <= k < |levels| ensures levels[k].price != price {
        if k < r.pos {
          assert Worse(side, levels[k].price, price);
        } else {
          assert Worse(side, price, levels[k].price);
        }
      }
    }
  }

  /** Both outcomes of the search split the ladder into the levels worse than the price and the rest. */
  lemma FindSplits(side: Side, levels: seq<PriceLevel>, price: Decimal64)
    requires Sorted(side, levels)
    ensures SplitsAt(side, levels, price, Find(side, levels, price).pos)
  {
    var r := Find(side, levels, price);
    forall k | 0 <= k < |levels| ensures k < r.pos <==> Worse(side, levels[k].price, price) {
      if r.Found? && k > r.pos {
        assert Worse(side, levels[r.pos].price, levels[k].price);
      }
    }
  }

  /** One `Remove` event per level, in index order. */
  function Removals(side: Side, levels: seq<PriceLevel>): (r: seq<Event>)
    ensures |r| == |levels|
    ensures forall i :: 0 <= i < |levels| ==> r[i] == Remove(side, levels[i])
  {
    if levels == [] then [] else [Remove(side, levels[0])] + Removals(side, levels[1..])
  }

  /** Reporting one more removal extends the report at its end. */
  lemma {:induction false} RemovalsSnoc(side: Side, levels: seq<PriceLevel>, level: PriceLevel)
    ensures Removals(side, levels + [level]) == Removals(side, levels) + [Remove(side, level)]
  {
    if levels != [] {
      assert (levels + [level])[1..] == levels[1..] + [level];
      RemovalsSnoc(side, levels[1..], level);
    }
  }

  /** The levels read from the best to the worst. */
  function Reversed(levels: seq<PriceLevel>): (r: seq<PriceLevel>)
    ensures |r| == |levels|
    ensures forall i :: 0 <= i < |levels| ==> r[i] == levels[|levels| - 1 - i]
  {
    if levels == [] then [] else [levels[|levels| - 1]] + Reversed(levels[..|levels| - 1])
  }

  lemma SortedRemoveAt(side: Side, levels: seq<PriceLevel>, i: nat)
    requires Sorted(side, levels) && i < |levels|
    ensures Sorted(side, levels[..i] + levels[i + 1..])
    ensures forall l :: l in levels[..i] + levels[i + 1..] <==> l in levels && l != levels[i]
  {
    var rest := levels[..i] + levels[i + 1..];
    forall x, y | 0 <= x < y < |rest| ensures Worse(side, rest[x].price, rest[y].price) {
      var x', y' := if x < i then x else x + 1, if y < i then y else y + 1;
      assert rest[x] == levels[x'] && rest[y] == levels[y'];
    }
    forall l ensures l in rest <==> l in levels && l != levels[i] {
      if l in rest {
        var x :| 0 <= x < |rest| && rest[x] == l;
        var x' := if x < i then x else x + 1;
        assert levels[x'] == l && x' != i;
        assert levels[x'].price != levels[i].price;
      }
      if l in levels && l != levels[i] {
        var x :| 0 <= x < |levels| && levels[x] == l;
        assert rest[if x < i then x else x - 1] == l;
      }
    }
  }

  lemma SortedInsertAt(side: Side, levels: seq<PriceLevel>, level: PriceLevel, i: nat)
    requires Sorted(side, levels) && i <= |levels|
    requires forall k :: 0 <= k < i ==> Worse(side, levels[k].price, level.price)
    requires forall k :: i <= k < |levels| ==> Worse(side, level.price, levels[k].price)
    ensures Sorted(side, levels[..i] + [level] + levels[i..])
    ensures forall l :: l in levels[..i] + [level] + levels[i..] <==> l in levels || l == level
  {
    var grown := levels[..i] + [level] + levels[i..];
    assert forall k :: 0 <= k < |grown| ==> grown[k] == if k < i then levels[k] else if k == i then level else levels[k - 1];
    forall l | l in levels ensures l in grown {
      var x :| 0 <= x < |levels| && levels[x] == l;
      assert grown[if x < i then x else x + 1] == l;
    }
  }

  /** A prefix bounded by a split point holds exactly the levels worse than the price. */
  lemma PrefixIsWorse(side: Side, levels: seq<PriceLevel>, price: Decimal64, pos: nat)
    requires SplitsAt(side, levels, price, pos)
    ensures forall l :: l in levels[..pos] <==> l in levels && Worse(side, l.price, price)
  {
    forall l ensures l in levels[..pos] <==> l in levels && Worse(side, l.price, price) {
      if l in levels && Worse(side, l.price, price) {
        var x :| 0 <= x < |levels| && levels[x] == l;
        assert levels[..pos][x] == l;
      }
    }
  }

  /** Every level of a sorted ladder other than its last is worse than the last. */
  lemma LastIsBest(side: Side, levels: seq<PriceLevel>, l: PriceLevel)
    requires Sorted(side, levels) && l in levels
    ensures l == levels[|levels| - 1] || Worse(side, l.price, levels[|levels| - 1].price)
  {
  }

  /** Dropping the last level of a sorted ladder drops exactly that level. */
  lemma DropBest(side: Side, levels: seq<PriceLevel>)
    requires Sorted(side, levels) && levels != []
    ensures Sorted(side, levels[..|levels| - 1])
    ensures forall l :: l in levels[..|levels| - 1] <==> l in levels && l != levels[|levels| - 1]
  {
    var n := |levels| - 1;
    SortedRemoveAt(side, levels, n);
    assert levels[..n] + levels[n + 1..] == levels[..n];
  }

  /** A sorted ladder is determined by the set of levels it holds. */
  lemma {:induction false} SortedDetermined(side: Side, a: seq<PriceLevel>, b: seq<PriceLevel>)
    requires Sorted(side, a) && Sorted(side, b)
    requires forall l :: l in a <==> l in b
    ensures a == b
    decreases |a|
  {
    if a != [] { assert a[0] in b; }
    if b != [] { assert b[0] in a; }
    if a != [] {
      var x, y := a[|a| - 1], b[|b| - 1];
      LastIsBest(side, a, y);
      LastIsBest(side, b, x);
      assert x == y;
      var a', b' := a[..|a| - 1], b[..|b| - 1];
      DropBest(side, a);
      DropBest(side, b);
      forall l | l in a' ensures l in b' {
        assert l in a && l != x;
      }
      forall l | l in b' ensures l in a' {
        assert l in b && l != y;
      }
      SortedDetermined(side, a', b');
      assert a == a' + [x];
      assert b == b' + [y];
    }
  }
}
