/** The statistics the journal derives from its list of trades on every render. */
module Stats {
  import opened Trades

  function Min(a: int, b: int): (m: int) { if a <= b then a else b }

  function Max(a: int, b: int): (m: int) { if a <= b then b else a }

  // ---------------------------------------------------------------------------
  // Total profit

  /** `trades.reduce((sum, trade) => sum + trade.pnl, 0)`: a fold from the left, starting at 0. */
  function TotalProfit(trades: seq<Trade>): (total: real)
  {
    if trades == [] then 0.0
    else TotalProfit(trades[..|trades| - 1]) + trades[|trades| - 1].pnl
  }

  /** Reference definition: the pnl of the first trade plus the sum of the rest. */
  function PnlSum(trades: seq<Trade>): (sum: real)
  {
    if trades == [] then 0.0 else trades[0].pnl + PnlSum(trades[1..])
  }

  /** The total of two lists placed end to end is the sum of their totals. */
  lemma {:induction false} TotalProfitConcat(a: seq<Trade>, b: seq<Trade>)
    ensures TotalProfit(a + b) == TotalProfit(a) + TotalProfit(b)
  {
    if b == [] {
      assert a + b == a;
    } else {
      var front := b[..|b| - 1];
      assert (a + b)[..|a + b| - 1] == a + front;
      TotalProfitConcat(a, front);
    }
  }

  /** The fold computes the plain sum of all pnl values. */
  lemma {:induction false} TotalProfitIsPnlSum(trades: seq<Trade>)
    ensures TotalProfit(trades) == PnlSum(trades)
  {
    if trades != [] {
      var first := [trades[0]];
      assert first + trades[1..] == trades;
      TotalProfitConcat(first, trades[1..]);
      assert first[..0] == [];
      TotalProfitIsPnlSum(trades[1..]);
    }
  }

  /** Appending one trade raises the total by exactly that trade's pnl. */
  lemma TotalProfitAppend(trades: seq<Trade>, t: Trade)
    ensures TotalProfit(trades + [t]) == TotalProfit(trades) + t.pnl
  {
  }

  // ---------------------------------------------------------------------------
  // Win rate

  /** `trades.filter(t => t.pnl > 0)`: the winning trades, in list order. */
  function Winners(trades: seq<Trade>): (w: seq<Trade>)
    ensures |w| <= |trades|
  {
    if trades == [] then []
    else
      var last := trades[|trades| - 1];
      Winners(trades[..|trades| - 1]) + (if last.pnl > 0.0 then [last] else [])
  }

  /** The filtered list holds exactly the trades of positive pnl. */
  lemma {:induction false} WinnersAreWinningTrades(trades: seq<Trade>)
    ensures forall t :: t in Winners(trades) <==> t in trades && t.pnl > 0.0
  {
    if trades != [] {
      var n := |trades| - 1;
      var front := trades[..n];
      WinnersAreWinningTrades(front);
      assert trades == front + [trades[n]];
    }
  }

  /** The positions of the winning trades. */
  ghost function WinIndices(trades: seq<Trade>): set<int>
  {
    set i | 0 <= i < |trades| && trades[i].pnl > 0.0
  }

  /** The length of the filtered list is the number of positions holding a winning trade. */
  lemma {:induction false} WinnersCountsWinningPositions(trades: seq<Trade>)
    ensures |Winners(trades)| == |WinIndices(trades)|
  {
    if trades != [] {
      var n := |trades| - 1;
      var front := trades[..n];
      WinnersCountsWinningPositions(front);
      var extra: set<int> := if trades[n].pnl > 0.0 then {n} else {};
      forall i | 0 <= i < n
        ensures i in WinIndices(trades) <==> i in WinIndices(front)
      {
        assert front[i] == trades[i];
      }
      assert WinIndices(trades) == WinIndices(front) + extra;
      assert n !in WinIndices(front);
    }
  }

  /** A share of a whole, scaled to a percentage, lies in [0, 100]. */
  lemma PercentageBounds(part: real, whole: real)
    requires 0.0 <= part <= whole && 0.0 < whole
    ensures 0.0 <= part / whole * 100.0 <= 100.0
    ensures part / whole * 100.0 * whole == 100.0 * part
  {
  }

  /**
   * `trades.filter(t => t.pnl > 0).length / trades.length * 100`. On an empty list
   * this is 0 / 0, which JavaScript evaluates to NaN; `None` stands for that NaN.
   */
  function WinRate(trades: seq<Trade>): (r: Option<real>)
    ensures r.None? <==> |trades| == 0
    ensures r.Some? ==> 0.0 <= r.value <= 100.0
    ensures r.Some? ==> r.value * (|trades| as real) == 100.0 * (|Winners(trades)| as real)
  {
    if |trades| == 0 then None
    else
      var wins := |Winners(trades)| as real;
      var n := |trades| as real;
      PercentageBounds(wins, n);
      Some(wins / n * 100.0)
  }

  // ---------------------------------------------------------------------------
  // Balance

  /** `capital + totalProfit`. */
  function Balance(capital: real, trades: seq<Trade>): (balance: real)
  {
    capital + TotalProfit(trades)
  }

  /**
   * A trade whose pnl is added to the capital and whose record is appended to the list
   * is counted twice: once in the capital and once in the total profit.
   */
  lemma BalanceCountsPnlTwice(capital: real, trades: seq<Trade>, t: Trade)
    ensures Balance(capital + t.pnl, trades + [t]) == Balance(capital, trades) + 2.0 * t.pnl
  {
  }

  // ---------------------------------------------------------------------------
  // Recent trades view

  /**
   * `s.slice(start)` with a single argument: a negative start counts back from the end,
   * and either kind of start is clamped to the bounds of the list.
   */
  function SliceFrom<T>(s: seq<T>, start: int): (r: seq<T>)
    ensures |r| == if start < 0 then Min(-start, |s|) else Max(|s| - start, 0)
    ensures r == s[|s| - |r|..]
  {
    var k := if start < 0 then Max(|s| + start, 0) else Min(start, |s|);
    s[k..]
  }

  /** `s.reverse()`: the last element first. */
  function Reversed<T>(s: seq<T>): (r: seq<T>)
    ensures |r| == |s|
  {
    if s == [] then [] else [s[|s| - 1]] + Reversed(s[..|s| - 1])
  }

  /** Element k of the reversed list is element k counted from the end of the original. */
  lemma {:induction false} ReversedAt<T>(s: seq<T>, k: nat)
    requires k < |s|
    ensures Reversed(s)[k] == s[|s| - 1 - k]
  {
    if k > 0 {
      ReversedAt(s[..|s| - 1], k - 1);
    }
  }

  /** `trades.slice(-5).reverse()`: the last five trades of the list, the most recently appended first. */
  function RecentTrades(trades: seq<Trade>): (view: seq<Trade>)
  {
    Reversed(SliceFrom(trades, -5))
  }

  /** The view holds min(5, n) trades, and its element i is the (i+1)-th trade from the end. */
  lemma RecentTradesLastAppendedFirst(trades: seq<Trade>)
    ensures |RecentTrades(trades)| == Min(5, |trades|)
    ensures forall i :: 0 <= i < |RecentTrades(trades)| ==>
              RecentTrades(trades)[i] == trades[|trades| - 1 - i]
  {
    var tail := SliceFrom(trades, -5);
    forall i | 0 <= i < |tail|
      ensures RecentTrades(trades)[i] == trades[|trades| - 1 - i]
    {
      ReversedAt(tail, i);
    }
  }
}
