/**
 * The journal's state machine as values: the three pieces of component state,
 * the transitions the user triggers, and what holds in every state reachable
 * from the initial one.
 */
module Journal {
  import opened Trades
  import opened Stats

  /** The two trades the journal starts with. */
  const InitialTrades: seq<Trade> := [
    Trade(1, 150.0, "Confident", "2024-01-22"),
    Trade(2, -50.0, "Anxious", "2024-01-21")
  ]

  const InitialCapital: real := 50000.0

  /** The component state: the list of trades, the capital and the draft. */
  datatype State = State(trades: seq<Trade>, capital: real, draft: Draft)

  const Init: State := State(InitialTrades, InitialCapital, EmptyDraft)

  /** Both draft fields are non-empty (JavaScript truthiness of the two input strings). */
  predicate Ready(d: Draft)
  {
    d.pnl.Some? && |d.emotion| > 0
  }

  /**
   * `addTrade`: when the draft is ready, append a record numbered one past the
   * current length, add its pnl to the capital and clear the draft; otherwise do nothing.
   */
  function AddTrade(st: State, today: string): (st': State)
  {
    if Ready(st.draft) then
      var pnl := st.draft.pnl.value;
      State(st.trades + [Trade(|st.trades| + 1, pnl, st.draft.emotion, today)],
            st.capital + pnl, EmptyDraft)
    else st
  }

  /** Typing into the pnl field replaces only that field of the draft. */
  function EditPnl(st: State, pnl: Option<real>): (st': State)
  {
    st.(draft := st.draft.(pnl := pnl))
  }

  /** Typing into the emotion field replaces only that field of the draft. */
  function EditEmotion(st: State, emotion: string): (st': State)
  {
    st.(draft := st.draft.(emotion := emotion))
  }

  /** What the user can do to the state. */
  datatype Event =
    | PnlTyped(pnl: Option<real>)
    | EmotionTyped(emotion: string)
    | AddClicked(today: string)

  function Step(st: State, ev: Event): (st': State)
  {
    match ev
    case PnlTyped(pnl) => EditPnl(st, pnl)
    case EmotionTyped(emotion) => EditEmotion(st, emotion)
    case AddClicked(today) => AddTrade(st, today)
  }

  /** The state after the events, first to last. */
  function Run(st: State, events: seq<Event>): (st': State)
    decreases events
  {
    if events == [] then st else Run(Step(st, events[0]), events[1..])
  }

  /** `capital + totalProfit` of a state. */
  function BalanceOf(st: State): (balance: real)
  {
    Balance(st.capital, st.trades)
  }

  /** The figures the journal shows before anything is recorded. */
  lemma InitialFigures()
    ensures TotalProfit(Init.trades) == 100.0
    ensures WinRate(Init.trades) == Some(50.0)
    ensures BalanceOf(Init) == 50100.0
    ensures RecentTrades(Init.trades) == [InitialTrades[1], InitialTrades[0]]
  {
  }

  // ---------------------------------------------------------------------------
  // Single transitions

  /** With either draft field empty, `addTrade` changes nothing at all. */
  lemma AddTradeIgnoresIncompleteDraft(st: State, today: string)
    requires !Ready(st.draft)
    ensures AddTrade(st, today) == st
  {
  }

  /**
   * With both draft fields filled, `addTrade` appends exactly one record at the end,
   * leaves the earlier records alone, numbers the new one `old length + 1`, raises the
   * capital by its pnl and resets the draft.
   */
  lemma AddTradeAppendsOne(st: State, today: string)
    requires Ready(st.draft)
    ensures var r := AddTrade(st, today);
      && |r.trades| == |st.trades| + 1
      && r.trades[..|st.trades|] == st.trades
      && r.trades[|st.trades|] == Trade(|st.trades| + 1, st.draft.pnl.value, st.draft.emotion, today)
      && r.capital == st.capital + st.draft.pnl.value
      && r.draft == EmptyDraft
  {
  }

  /** A recorded trade raises the balance by twice its pnl: once through the capital, once through the total. */
  lemma AddTradeRaisesBalanceTwice(st: State, today: string)
    requires Ready(st.draft)
    ensures BalanceOf(AddTrade(st, today)) == BalanceOf(st) + 2.0 * st.draft.pnl.value
  {
  }

  // ---------------------------------------------------------------------------
  // Reachable states

  /** Record i (from 0) carries id i + 1. */
  ghost predicate IdsSequential(trades: seq<Trade>)
  {
    forall i :: 0 <= i < |trades| ==> trades[i].id == i + 1
  }

  /** Numbering 1..n in list order makes the ids unique. */
  lemma SequentialIdsAreUnique(trades: seq<Trade>)
    requires IdsSequential(trades)
    ensures forall i, j :: 0 <= i < |trades| && 0 <= j < |trades| && trades[i].id == trades[j].id ==> i == j
  {
  }

  /**
   * What every reachable state satisfies: the two initial trades still head the list,
   * ids run 1..n, and the capital is the initial capital plus the pnl of every trade
   * recorded since.
   */
  ghost predicate Inv(st: State)
  {
    && |st.trades| >= |InitialTrades|
    && st.trades[..|InitialTrades|] == InitialTrades
    && IdsSequential(st.trades)
    && st.capital == InitialCapital + TotalProfit(st.trades[|InitialTrades|..])
  }

  lemma InitSatisfiesInv()
    ensures Inv(Init)
  {
  }

  lemma StepKeepsInv(st: State, ev: Event)
    requires Inv(st)
    ensures Inv(Step(st, ev))
  {
    if ev.AddClicked? && Ready(st.draft) {
      var k := |InitialTrades|;
      var t := Trade(|st.trades| + 1, st.draft.pnl.value, st.draft.emotion, ev.today);
      var r := AddTrade(st, ev.today);
      assert r.trades == st.trades + [t];
      assert r.trades[..k] == st.trades[..k];
      assert r.trades[k..] == st.trades[k..] + [t];
      TotalProfitAppend(st.trades[k..], t);
    }
  }

  lemma {:induction false} RunKeepsInv(st: State, events: seq<Event>)
    requires Inv(st)
    ensures Inv(Run(st, events))
    decreases events
  {
    if events != [] {
      StepKeepsInv(st, events[0]);
      RunKeepsInv(Step(st, events[0]), events[1..]);
    }
  }

  /** In every reachable state the ids are 1..n in list order, hence unique. */
  lemma ReachableIdsSequential(events: seq<Event>)
    ensures IdsSequential(Run(Init, events).trades)
    ensures var ts := Run(Init, events).trades;
      forall i, j :: 0 <= i < |ts| && 0 <= j < |ts| && ts[i].id == ts[j].id ==> i == j
  {
    InitSatisfiesInv();
    RunKeepsInv(Init, events);
    SequentialIdsAreUnique(Run(Init, events).trades);
  }

  /** The list never shrinks below the two initial trades, so the win rate's 0 / 0 is never reached. */
  lemma ReachableWinRateDefined(events: seq<Event>)
    ensures |Run(Init, events).trades| >= 2
    ensures WinRate(Run(Init, events).trades).Some?
  {
    InitSatisfiesInv();
    RunKeepsInv(Init, events);
  }

  /**
   * In a state satisfying the invariant, the balance shown is 50100 (the initial capital
   * plus the initial trades' 100) plus twice the pnl of every trade recorded since.
   */
  lemma InvBalanceDoubleCounts(st: State)
    requires Inv(st)
    ensures |st.trades| >= 2
    ensures BalanceOf(st) == 50100.0 + 2.0 * TotalProfit(st.trades[2..])
  {
    var ts := st.trades;
    assert ts[..2] + ts[2..] == ts;
    TotalProfitConcat(ts[..2], ts[2..]);
    assert TotalProfit(InitialTrades) == 100.0 by {
      assert InitialTrades[..1][..0] == [];
    }
  }

  /** The closed form of the balance holds in every state reachable from the initial one. */
  lemma ReachableBalanceDoubleCounts(events: seq<Event>)
    ensures var st := Run(Init, events);
      && |st.trades| >= 2
      && BalanceOf(st) == 50100.0 + 2.0 * TotalProfit(st.trades[2..])
  {
    InitSatisfiesInv();
    RunKeepsInv(Init, events);
    InvBalanceDoubleCounts(Run(Init, events));
  }
}
