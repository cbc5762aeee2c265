/** The shared budget row: one ledger file used by several job services. */
module BudgetLedger {
  import opened Prelude

  type Digest = string
  type Ref = string
  type Path = string

  datatype Budget = Budget(
    path: Path,
    maxCalls: int, callsBefore: int,
    maxSeconds: int, secondsBefore: int,
    expiresAt: real)

  /** What the service constructor demands of a case's budget. */
  predicate ValidBudget(b: Budget) {
    && 1 <= b.maxCalls <= 8 && 0 <= b.callsBefore < b.maxCalls
    && 1 <= b.maxSeconds <= 1200 && 0 <= b.secondsBefore < b.maxSeconds
  }

  datatype Row = Row(binding: Digest, calls: int, seconds: int, held: Option<Ref>)

  datatype Refusal = BindingDiffers | UnknownHeld | ExhaustedOrExpired | SecondsExhausted

  datatype Grant = Grant(row: Row, allocation: int)

  /** One reservation transaction: the row it writes, or the reason it is refused. */
  function ReserveRow(bind: Budget -> Digest, row: Option<Row>, b: Budget, cap: int, ref: Ref, now: real)
    : Result<Grant, Refusal>
  {
    var calls := if row.None? then b.callsBefore else row.value.calls;
    var seconds := if row.None? then b.secondsBefore else row.value.seconds;
    if row.Some? && row.value.binding != bind(b) then Err(BindingDiffers)
    else if row.Some? && row.value.held.Some? then Err(UnknownHeld)
    else if !(now < b.expiresAt && calls < b.maxCalls) then Err(ExhaustedOrExpired)
    else
      var allocation := if cap <= b.maxSeconds - seconds then cap else b.maxSeconds - seconds;
      if allocation < 1 then Err(SecondsExhausted)
      else Ok(Grant(Row(bind(b), calls + 1, seconds + allocation, Some(ref)), allocation))
  }

  /** Clears the latch, but only when it carries the given ref. */
  function ReleaseRow(row: Option<Row>, ref: Ref): Option<Row> {
    if row.Some? && row.value.held == Some(ref) then Some(row.value.(held := None)) else row
  }

  /** The ledger file as the services share it. */
  class LedgerFile {
    var row: Option<Row>

    constructor ()
      ensures row == None
    {
      row := None;
    }

    method Reserve(bind: Budget -> Digest, b: Budget, cap: int, ref: Ref, now: real)
      returns (r: Result<int, Refusal>)
      modifies this
      ensures var want := ReserveRow(bind, old(row), b, cap, ref, now);
              match want
              case Ok(g) => r == Ok(g.allocation) && row == Some(g.row)
              case Err(e) => r == Err(e) && row == old(row)
    {
      var calls, seconds := b.callsBefore, b.secondsBefore;
      if row.Some? {
        calls, seconds := row.value.calls, row.value.seconds;
        if row.value.binding != bind(b) { return Err(BindingDiffers); }
        if row.value.held.Some? { return Err(UnknownHeld); }
      }
      if now >= b.expiresAt || calls >= b.maxCalls { return Err(ExhaustedOrExpired); }
      var allocation := cap;
      if b.maxSeconds - seconds < cap { allocation := b.maxSeconds - seconds; }
      if allocation < 1 { return Err(SecondsExhausted); }
      row := Some(Row(bind(b), calls + 1, seconds + allocation, Some(ref)));
      r := Ok(allocation);
    }

    method Release(ref: Ref)
      modifies this
      ensures row == ReleaseRow(old(row), ref)
    {
      if row.Some? && row.value.held == Some(ref) {
        row := Some(row.value.(held := None));
      }
    }
  }
}
