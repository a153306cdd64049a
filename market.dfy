/**
 * The simulated market: stocks with a current price and an append-only
 * price history, and the tick that moves every price by a bounded random
 * change, clamped at a floor of 1.
 */
module Market {

  /** Bounds of the random change drawn per stock per tick, and the price floor. */
  const MinChange: int := -10
  const MaxChange: int := 10
  const Floor: int := 1

  /** A tradable stock; its price and history are updated in place. */
  class Stock {
    const name: string
    var currentPrice: int
    var priceHistory: seq<int>

    /** The history is never empty and ends with the current price. */
    ghost predicate Valid()
      reads this
    {
      |priceHistory| > 0 && priceHistory[|priceHistory| - 1] == currentPrice
    }

    constructor (name: string, initialPrice: int)
      ensures Valid()
      ensures this.name == name
      ensures currentPrice == initialPrice && priceHistory == [initialPrice]
    {
      this.name := name;
      currentPrice := initialPrice;
      priceHistory := [initialPrice];
    }

    /** Sets the price and records it at the end of the history. */
    method UpdatePrice(newPrice: int)
      modifies this
      ensures Valid()
      ensures currentPrice == newPrice
      ensures priceHistory == old(priceHistory) + [newPrice]
    {
      currentPrice := newPrice;
      priceHistory := priceHistory + [newPrice];
    }
  }

  /** Every change in `changes` is one `randint(MinChange, MaxChange)` could draw. */
  predicate InRange(changes: seq<int>)
  {
    forall k :: 0 <= k < |changes| ==> MinChange <= changes[k] <= MaxChange
  }

  /** No stock occurs twice in `stocks`. */
  predicate Distinct(stocks: seq<Stock>)
  {
    forall i, j :: 0 <= i < j < |stocks| ==> stocks[i] != stocks[j]
  }

  /**
   * The price a stock moves to when `change` is drawn: the smallest value
   * that is both at least the floor and at least `price + change`.
   */
  function NextPrice(price: int, change: int): (r: int)
    ensures r >= Floor && r >= price + change
    ensures r == Floor || r == price + change
    ensures price >= Floor && MinChange <= change <= MaxChange ==>
              price + MinChange <= r <= price + MaxChange
  {
    if price + change < Floor then Floor else price + change
  }

  /**
   * The prices a stock starting at `start` takes, one per tick, when the
   * changes drawn for it are `changes` (the start itself is not included).
   */
  function Walk(start: int, changes: seq<int>): (prices: seq<int>)
    ensures |prices| == |changes|
    ensures forall k :: 0 <= k < |prices| ==> prices[k] >= Floor
    decreases changes
  {
    if changes == [] then []
    else
      var next := NextPrice(start, changes[0]);
      [next] + Walk(next, changes[1..])
  }

  /** The price after all of `changes` have been applied to `start`. */
  function PriceAfter(start: int, changes: seq<int>): int
  {
    ([start] + Walk(start, changes))[|changes|]
  }

  /** Each price in `h` is within ten of the one before it and at least the floor. */
  predicate SteadySteps(h: seq<int>)
  {
    forall k :: 0 < k < |h| ==> h[k - 1] + MinChange <= h[k] <= h[k - 1] + MaxChange && h[k] >= Floor
  }

  /**
   * From a price at or above the floor, each tick of a walk moves the price
   * by at most ten either way and never below the floor.
   */
  lemma {:induction false} WalkStepsBounded(start: int, changes: seq<int>)
    requires start >= Floor
    requires InRange(changes)
    ensures SteadySteps([start] + Walk(start, changes))
    decreases changes
  {
    if changes != [] {
      var next := NextPrice(start, changes[0]);
      var rest := changes[1..];
      assert InRange(rest) by {
        forall k | 0 <= k < |rest| ensures MinChange <= rest[k] <= MaxChange {
          assert rest[k] == changes[k + 1];
        }
      }
      WalkStepsBounded(next, rest);
      var h := [start] + Walk(start, changes);
      var t := [next] + Walk(next, rest);
      assert h == [start] + t;
      forall k | 0 < k < |h|
        ensures h[k - 1] + MinChange <= h[k] <= h[k - 1] + MaxChange && h[k] >= Floor
      {
        if k > 1 {
          assert h[k - 1] == t[k - 2] && h[k] == t[k - 1];
        }
      }
    }
  }

  /** One more tick appends exactly one price, computed from the last one. */
  lemma {:induction false} WalkExtend(start: int, changes: seq<int>, c: int)
    ensures Walk(start, changes + [c]) == Walk(start, changes) + [NextPrice(PriceAfter(start, changes), c)]
    decreases changes
  {
    if changes == [] {
      assert changes + [c] == [c];
    } else {
      var next := NextPrice(start, changes[0]);
      assert (changes + [c])[0] == changes[0];
      assert (changes + [c])[1..] == changes[1..] + [c];
      WalkExtend(next, changes[1..], c);
      assert PriceAfter(start, changes) == PriceAfter(next, changes[1..]);
    }
  }

  /** The changes drawn for stock `i` in each round, in order. */
  function Column(rounds: seq<seq<int>>, i: nat): (col: seq<int>)
    requires forall k :: 0 <= k < |rounds| ==> i < |rounds[k]|
    ensures |col| == |rounds|
    ensures forall k :: 0 <= k < |rounds| ==> col[k] == rounds[k][i]
  {
    if rounds == [] then [] else Column(rounds[..|rounds| - 1], i) + [rounds[|rounds| - 1][i]]
  }

  /** Taking one more round appends that round's change for stock `i`. */
  lemma ColumnExtend(rounds: seq<seq<int>>, n: nat, i: nat)
    requires n < |rounds|
    requires forall k :: 0 <= k < |rounds| ==> i < |rounds[k]|
    ensures Column(rounds[..n + 1], i) == Column(rounds[..n], i) + [rounds[n][i]]
  {
  }

  /** The walk over the first `n + 1` rounds is the walk over `n` rounds and one more tick. */
  lemma RoundExtends(start: int, rounds: seq<seq<int>>, n: nat, i: nat)
    requires n < |rounds|
    requires forall k :: 0 <= k < |rounds| ==> i < |rounds[k]|
    ensures Walk(start, Column(rounds[..n + 1], i)) ==
            Walk(start, Column(rounds[..n], i)) + [PriceAfter(start, Column(rounds[..n + 1], i))]
    ensures PriceAfter(start, Column(rounds[..n + 1], i)) ==
            NextPrice(PriceAfter(start, Column(rounds[..n], i)), rounds[n][i])
  {
    ColumnExtend(rounds, n, i);
    WalkExtend(start, Column(rounds[..n], i), rounds[n][i]);
  }

  /**
   * One pass of the market loop: each stock moves to `NextPrice` of its
   * price and the change drawn for it, and records that price.
   */
  method SimulateMarketStep(stocks: seq<Stock>, changes: seq<int>)
    requires |changes| == |stocks| && InRange(changes)
    requires Distinct(stocks)
    modifies stocks
    ensures forall i :: 0 <= i < |stocks| ==>
              stocks[i].currentPrice == NextPrice(old(stocks[i].currentPrice), changes[i])
    ensures forall i :: 0 <= i < |stocks| ==>
              stocks[i].priceHistory == old(stocks[i].priceHistory) + [stocks[i].currentPrice]
    ensures forall i :: 0 <= i < |stocks| ==> stocks[i].Valid()
  {
    for i := 0 to |stocks|
      invariant forall k :: 0 <= k < i ==>
                  stocks[k].currentPrice == NextPrice(old(stocks[k].currentPrice), changes[k]) &&
                  stocks[k].priceHistory == old(stocks[k].priceHistory) + [stocks[k].currentPrice] &&
                  stocks[k].Valid()
      invariant forall k :: i <= k < |stocks| ==>
                  stocks[k].currentPrice == old(stocks[k].currentPrice) &&
                  stocks[k].priceHistory == old(stocks[k].priceHistory)
    {
      var stock := stocks[i];
      var newPrice := NextPrice(stock.currentPrice, changes[i]);
      stock.UpdatePrice(newPrice);
    }
  }

  /**
   * The market loop run for `|rounds|` passes, `rounds[n]` holding the
   * changes drawn in pass `n`: each stock's history grows by the walk of
   * its own changes, and its price is where that walk ends.
   */
  method SimulateMarket(stocks: seq<Stock>, rounds: seq<seq<int>>)
    requires Distinct(stocks)
    requires forall k :: 0 <= k < |rounds| ==> |rounds[k]| == |stocks| && InRange(rounds[k])
    modifies stocks
    ensures forall i :: 0 <= i < |stocks| ==>
              stocks[i].priceHistory ==
                old(stocks[i].priceHistory) + Walk(old(stocks[i].currentPrice), Column(rounds, i))
    ensures forall i :: 0 <= i < |stocks| ==>
              stocks[i].currentPrice == PriceAfter(old(stocks[i].currentPrice), Column(rounds, i))
    ensures forall i :: 0 <= i < |stocks| ==>
              |stocks[i].priceHistory| == |old(stocks[i].priceHistory)| + |rounds|
    ensures (forall i :: 0 <= i < |stocks| ==> old(stocks[i].Valid())) ==>
              forall i :: 0 <= i < |stocks| ==> stocks[i].Valid()
    ensures |rounds| > 0 ==> forall i :: 0 <= i < |stocks| ==> stocks[i].currentPrice >= Floor
  {
    var n := 0;
    while n < |rounds|
      invariant 0 <= n <= |rounds|
      invariant forall i :: 0 <= i < |stocks| ==>
                  Follows(stocks[i], old(stocks[i].priceHistory), old(stocks[i].currentPrice), Column(rounds[..n], i))
    {
      SimulateMarketStep(stocks, rounds[n]);
      forall i | 0 <= i < |stocks|
        ensures Follows(stocks[i], old(stocks[i].priceHistory), old(stocks[i].currentPrice), Column(rounds[..n + 1], i))
      {
        RoundExtends(old(stocks[i].currentPrice), rounds, n, i);
      }
      n := n + 1;
    }
    assert rounds[..n] == rounds;
  }

  /** Stock `s` started from history `h0` at price `p0` and has since walked through `changes`. */
  ghost predicate Follows(s: Stock, h0: seq<int>, p0: int, changes: seq<int>)
    reads s
  {
    s.priceHistory == h0 + Walk(p0, changes) && s.currentPrice == PriceAfter(p0, changes)
  }
}
