/** The journal component: its three pieces of state, updated in place by the UI's handlers. */
module App {
  import opened Trades
  import opened Stats
  import Journal

  class TradeJournal {
    var trades: seq<Trade>
    var capital: real
    var newTrade: Draft

    /** The state as a value, for the specification in module Journal. */
    function Snapshot(): (st: Journal.State)
      reads this
    {
      Journal.State(trades, capital, newTrade)
    }

    ghost predicate Valid()
      reads this
    {
      Journal.Inv(Snapshot())
    }

    /**
     * `capital + totalProfit`, as shown on the home tab: 50100 plus twice the pnl of
     * every trade recorded since start-up.
     */
    function Balance(): (balance: real)
      reads this
      requires Valid()
      ensures |trades| >= 2
      ensures balance == 50100.0 + 2.0 * TotalProfit(trades[2..])
    {
      Journal.InvBalanceDoubleCounts(Snapshot());
      Stats.Balance(capital, trades)
    }

    /** The win rate shown on the home tab; the list is never empty, so it is always defined. */
    function WinRate(): (rate: Option<real>)
      reads this
      requires Valid()
      ensures rate.Some?
    {
      Stats.WinRate(trades)
    }

    /** The initial state: two trades, a capital of 50000 and an empty draft. */
    constructor ()
      ensures Valid()
      ensures Snapshot() == Journal.Init
    {
      trades := Journal.InitialTrades;
      capital := Journal.InitialCapital;
      newTrade := EmptyDraft;
      new;
      Journal.InitSatisfiesInv();
    }

    /** The pnl input's change handler. */
    method SetPnl(pnl: Option<real>)
      requires Valid()
      modifies this
      ensures Valid()
      ensures Snapshot() == Journal.EditPnl(old(Snapshot()), pnl)
      ensures trades == old(trades) && capital == old(capital)
      ensures newTrade == Draft(pnl, old(newTrade).emotion)
    {
      newTrade := newTrade.(pnl := pnl);
      Journal.StepKeepsInv(old(Snapshot()), Journal.PnlTyped(pnl));
    }

    /** The emotion input's change handler. */
    method SetEmotion(emotion: string)
      requires Valid()
      modifies this
      ensures Valid()
      ensures Snapshot() == Journal.EditEmotion(old(Snapshot()), emotion)
      ensures trades == old(trades) && capital == old(capital)
      ensures newTrade == Draft(old(newTrade).pnl, emotion)
    {
      newTrade := newTrade.(emotion := emotion);
      Journal.StepKeepsInv(old(Snapshot()), Journal.EmotionTyped(emotion));
    }

    /**
     * `addTrade`, with `today` the date the wall clock gives. Acts only when both
     * draft fields are filled in; the balance then rises by twice the trade's pnl.
     */
    method AddTrade(today: string)
      requires Valid()
      modifies this
      ensures Valid()
      ensures Snapshot() == Journal.AddTrade(old(Snapshot()), today)
      ensures !Journal.Ready(old(newTrade)) ==>
                trades == old(trades) && capital == old(capital) && newTrade == old(newTrade)
      ensures Journal.Ready(old(newTrade)) ==>
                && trades == old(trades) + [Trade(|old(trades)| + 1, old(newTrade).pnl.value, old(newTrade).emotion, today)]
                && capital == old(capital) + old(newTrade).pnl.value
                && newTrade == EmptyDraft
                && Balance() == old(Balance()) + 2.0 * old(newTrade).pnl.value
    {
      if newTrade.pnl.Some? && newTrade.emotion != "" {
        var pnl := newTrade.pnl.value;
        trades := trades + [Trade(|trades| + 1, pnl, newTrade.emotion, today)];
        capital := capital + pnl;
        newTrade := EmptyDraft;
        Journal.AddTradeRaisesBalanceTwice(old(Snapshot()), today);
      }
      Journal.StepKeepsInv(old(Snapshot()), Journal.AddClicked(today));
    }
  }
}
