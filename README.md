# Trade journal: state machine and derived statistics

This project models the core of a personal trading journal's single React
component, `src/App.jsx`. The component keeps three pieces of state:

- `trades`: the list of recorded trades;
- `capital`: a number;
- `newTrade`: a draft holding a `pnl` field and an `emotion` field.

The `addTrade` handler appends a trade only when both draft fields are filled in.
The new record's id is the list's length plus one. The handler adds the trade's
pnl to `capital` and then clears the draft. On every render the component derives
four values from the state:

- the total profit, a fold over the pnl values;
- the win rate, the percentage of trades with positive pnl;
- the balance, `capital + totalProfit`;
- the "recent trades" view, `trades.slice(-5).reverse()`.

Files:

- `trades.dfy` (module `Trades`): the trade record, the draft and an `Option` type.
- `stats.dfy` (module `Stats`): the derived values as functions, with lemmas tying each
  one to an independent description. The fold is compared with a plain sum.
  The filter is characterised by its members and its length. The win rate is
  bounded. The recent-trades view is described element by element.
- `journal.dfy` (module `Journal`): the state machine as values. It has the initial
  state, the `addTrade` transition, the two input handlers and runs of user events,
  and it proves what holds in every state reachable from the initial one.
- `app.dfy` (module `App`): the component as a class `TradeJournal`. Its fields are
  `trades`, `capital` and `newTrade`, and its methods update them in place.
  Each method is proved against the matching transition in `Journal` and keeps the
  reachable-state invariant.

The model keeps two behaviours of the code as they are:

- **Double counting.** A recorded trade's pnl goes into `capital`
  (`src/App.jsx:21`) and is counted again in the total profit that `balance` adds
  to it (`src/App.jsx:26`, `src/App.jsx:28`). Each recorded trade therefore moves
  the balance by twice its pnl. `ReachableBalanceDoubleCounts` states the closed
  form: the balance is 50100 plus twice the pnl of every trade recorded after
  start-up.
- **Win rate of an empty list.** The win rate divides by `trades.length` without a
  guard, so an empty list gives 0 / 0, which is NaN in JavaScript. `WinRate`
  returns `None` for that case. No reachable state has an empty list, because the
  journal starts with two trades and only appends. So the NaN is never shown.

The model follows `src/App.jsx` throughout: in particular the win rate of an empty
list is undefined here (line 27 has no guard), not 0.

## Model

| member | source | states |
|---|---|---|
| `Stats.TotalProfit` | src/App.jsx:26 | the left fold `trades.reduce((sum, trade) => sum + trade.pnl, 0)`; `TotalProfitIsPnlSum` states that it equals the plain sum of all pnl values, `TotalProfitConcat` and `TotalProfitAppend` how it grows |
| `Stats.TotalProfitIsPnlSum` | src/App.jsx:26 | the left fold `reduce((sum, t) => sum + t.pnl, 0)` equals the sum of all pnl values |
| `Stats.TotalProfitConcat` | src/App.jsx:26 | the total of two lists placed end to end is the sum of their totals |
| `Stats.TotalProfitAppend` | src/App.jsx:26 | appending one trade raises the total profit by exactly its pnl |
| `Stats.Winners` | src/App.jsx:27 | `filter(t => t.pnl > 0)` never yields more trades than the list holds |
| `Stats.WinnersAreWinningTrades` | src/App.jsx:27 | a trade is in the filtered list if and only if it is in the list and has positive pnl |
| `Stats.WinnersCountsWinningPositions` | src/App.jsx:27 | the filtered list's length is the number of positions holding a trade with positive pnl |
| `Stats.WinRate` | src/App.jsx:27 | undefined (0 / 0) exactly when the list is empty; otherwise it lies in [0, 100], and multiplied by the length it gives 100 times the number of winning trades |
| `Stats.BalanceCountsPnlTwice` | src/App.jsx:21-28 | adding a trade's pnl to the capital and appending the trade raises `capital + totalProfit` by twice its pnl |
| `Stats.Balance` | src/App.jsx:28 | `capital + totalProfit`; `BalanceCountsPnlTwice` states that a trade added to both moves it by twice its pnl, `Journal.InvBalanceDoubleCounts` gives its closed form in every reachable state |
| `Stats.RecentTrades` | src/App.jsx:113 | `trades.slice(-5).reverse()`, built from `SliceFrom` and `Reversed`; `RecentTradesLastAppendedFirst` states its length and its elements |
| `Stats.SliceFrom` | src/App.jsx:113 | `slice(start)` is a suffix of the list: with a negative start its length is min(-start, n), with a non-negative start it is max(n - start, 0) |
| `Stats.Reversed` | src/App.jsx:113 | `reverse()` keeps the length |
| `Stats.ReversedAt` | src/App.jsx:113 | element k of the reversed list is element k counted from the end |
| `Stats.RecentTradesLastAppendedFirst` | src/App.jsx:113 | the recent-trades view holds min(5, n) trades, and its element i is `trades[n-1-i]`: the most recently appended trade first (not necessarily the latest date: the two initial trades are dated in descending order) |
| `Journal.InitialFigures` | src/App.jsx:6-28 | from the initial two trades and capital 50000: total profit 100, win rate 50, balance 50100, recent view = second trade then first |
| `Journal.AddTrade` | src/App.jsx:13-24 | the `addTrade` transition on state values; `AddTradeIgnoresIncompleteDraft`, `AddTradeAppendsOne` and `AddTradeRaisesBalanceTwice` state its two branches and its effect on the balance |
| `Journal.EditPnl` | src/App.jsx:134 | the pnl input's change handler on state values; `StepKeepsInv` states that it keeps the invariant, and `App.TradeJournal.SetPnl` that only the draft's pnl field changes |
| `Journal.EditEmotion` | src/App.jsx:153 | the emotion input's change handler on state values; `StepKeepsInv` states that it keeps the invariant, and `App.TradeJournal.SetEmotion` that only the draft's emotion field changes |
| `Journal.AddTradeIgnoresIncompleteDraft` | src/App.jsx:13-14 | if the pnl or emotion field is empty, `addTrade` leaves trades, capital and draft unchanged |
| `Journal.AddTradeAppendsOne` | src/App.jsx:15-22 | with both fields filled, exactly one record is appended at the end with id = old length + 1 and the draft's pnl and emotion; earlier records are unchanged; capital rises by the pnl; the draft is reset to empty |
| `Journal.AddTradeRaisesBalanceTwice` | src/App.jsx:21-28 | a successful `addTrade` raises the balance by exactly twice the trade's pnl |
| `Journal.SequentialIdsAreUnique` | src/App.jsx:16 | ids numbered 1..n in list order are pairwise distinct |
| `Journal.InitSatisfiesInv` | src/App.jsx:6-11 | the initial state satisfies the reachable-state invariant: ids 1, 2 and capital 50000 with no trades recorded since |
| `Journal.StepKeepsInv` | src/App.jsx:13-24 | `addTrade` and the two input handlers keep the invariant: the initial trades stay at the head, ids run 1..n, and capital = 50000 + pnl of every later trade |
| `Journal.RunKeepsInv` | src/App.jsx:13-24 | any sequence of user events keeps that invariant |
| `Journal.ReachableIdsSequential` | src/App.jsx:6-16 | in every reachable state the ids are exactly 1..n in list order, hence unique |
| `Journal.ReachableWinRateDefined` | src/App.jsx:6-27 | every reachable state has at least two trades, so its win rate is defined |
| `Journal.InvBalanceDoubleCounts` | src/App.jsx:6-28 | in every state satisfying the invariant the balance is 50100 plus twice the pnl of every trade recorded after the initial two |
| `Journal.ReachableBalanceDoubleCounts` | src/App.jsx:6-28 | in every reachable state the balance is 50100 plus twice the pnl of every trade recorded since start-up |
| `App.TradeJournal.constructor` | src/App.jsx:6-11 | the component starts with the two initial trades, capital 50000 and an empty draft, satisfying the invariant |
| `App.TradeJournal.Balance` | src/App.jsx:28 | the balance of a valid component is 50100 plus twice the pnl of every trade recorded since start-up |
| `App.TradeJournal.WinRate` | src/App.jsx:27 | the win rate of a valid component is always defined: its list is never empty |
| `App.TradeJournal.SetPnl` | src/App.jsx:134 | the pnl input's handler replaces only the draft's pnl field and keeps the invariant |
| `App.TradeJournal.SetEmotion` | src/App.jsx:153 | the emotion input's handler replaces only the draft's emotion field and keeps the invariant |
| `App.TradeJournal.AddTrade` | src/App.jsx:13-24 | in place: unchanged state when either field is empty; otherwise one record appended with id = old length + 1, capital raised by the pnl, draft cleared, and balance raised by twice the pnl; keeps the invariant |

## Left out

- Rendering, inline styles, the `activeTab` navigation, hover handlers and icons: presentation with no state to verify.
- `parseFloat` and `toFixed`: string-to-number conversion and display formatting. The draft's pnl field is either empty (`None`) or an already-parsed number (`Some(v)`), and pnl values are exact reals, so IEEE rounding is not modelled.
- A non-empty pnl string that `parseFloat` turns into NaN is not modelled, because the number input hands the handler either an empty string or a numeric one.
- The date stamp `new Date().toISOString().split('T')[0]` reads the wall clock. It is the parameter `today` of `AddTrade`.
- React's state batching and stale closures: each handler is modelled as one atomic step from the state it reads.
- The remote store, realtime subscriptions, optimistic writes, the pre-trade checklist, screenshots and the profit factor belong to a later version of the journal. `src/App.jsx` does not have them.
