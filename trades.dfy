/** The records the journal keeps: a recorded trade and the draft being typed in. */
module Trades {

  /** An optional value. In a draft, `None` is the empty input field. */
  datatype Option<+T> = None | Some(value: T)

  /** One journal entry: `{ id, pnl, emotion, date }`. The pnl is already parsed to a number. */
  datatype Trade = Trade(id: int, pnl: real, emotion: string, date: string)

  /** The `newTrade` draft: the pnl field (empty or holding a number) and the free-text emotion. */
  datatype Draft = Draft(pnl: Option<real>, emotion: string)

  /** The draft both input fields are reset to. */
  const EmptyDraft: Draft := Draft(None, "")
}
