/** The lifecycle state of a trade, computed twice: by a SQL CASE over nullable columns and by a Python function. */
module Lifecycle {
  import opened Common

  datatype State =
    | SignalReceived | OrderRequested | OrderPlaced | Open | PartiallyClosed | TpHit | BreakevenSet
    | TrailingActive | Closing | Closed | Failed | Orphaned | Reconciled

  function Name(s: State): string {
    match s
    case SignalReceived => "signal_received"
    case OrderRequested => "order_requested"
    case OrderPlaced => "order_placed"
    case Open => "open"
    case PartiallyClosed => "partially_closed"
    case TpHit => "tp_hit"
    case BreakevenSet => "breakeven_set"
    case TrailingActive => "trailing_active"
    case Closing => "closing"
    case Closed => "closed"
    case Failed => "failed"
    case Orphaned => "orphaned"
    case Reconciled => "reconciled"
  }

  /** States that no legacy column records. */
  predicate Transient(s: State) {
    s in {SignalReceived, OrderRequested, OrderPlaced, Closing, TpHit}
  }

  // ----- SQL -----

  /** Three-valued truth. */
  datatype Truth = True | False | Unknown

  function And(a: Truth, b: Truth): Truth {
    if a == False || b == False then False else if a == True && b == True then True else Unknown
  }

  function Or(a: Truth, b: Truth): Truth {
    if a == True || b == True then True else if a == False && b == False then False else Unknown
  }

  function Equals(column: Option<string>, literal: string): Truth {
    match column case None => Unknown case Some(v) => if v == literal then True else False
  }

  function Holds(column: Option<bool>): Truth {
    match column case None => Unknown case Some(v) => if v then True else False
  }

  function IsNull<T>(column: Option<T>): Truth {
    if column.None? then True else False
  }

  datatype When = When(condition: Truth, result: string)

  /** CASE without ELSE: the first branch that is true, NULL if none is. */
  function Case(whens: seq<When>): Option<string> {
    if whens == [] then None
    else if whens[0].condition == True then Some(whens[0].result)
    else Case(whens[1..])
  }

  /** The nullable columns of a joined position row. */
  datatype Columns = Columns(
    tradeId: Option<nat>,
    slType: Option<string>,
    tpHit: Option<bool>,
    trailingActive: Option<bool>)

  /** What a LEFT JOIN shows where there is no row. */
  const NO_ROW := Columns(None, None, None, None)

  function Whens(status: string, closeReason: Option<string>, ps: Columns): seq<When> {
    var isError, isClosed, isOpen :=
      Equals(Some(status), "error"), Equals(Some(status), "closed"), Equals(Some(status), "open");
    [
      When(isError, "failed"),
      When(And(isClosed, Equals(closeReason, "reconcile_gone")), "reconciled"),
      When(isClosed, "closed"),
      When(And(isOpen, IsNull(ps.tradeId)), "orphaned"),
      When(And(isOpen, Or(Equals(ps.slType, "trail"), Holds(ps.trailingActive))), "trailing_active"),
      When(And(isOpen, Equals(ps.slType, "be")), "breakeven_set"),
      When(And(isOpen, Holds(ps.tpHit)), "partially_closed"),
      When(isOpen, "open")
    ]
  }

  /** The backfill CASE over one row of the join. */
  function Backfill(status: string, closeReason: Option<string>, ps: Columns): Option<string> {
    Case(Whens(status, closeReason, ps))
  }

  // ----- Python -----

  function Derive(
    status: string, closeReason: Option<string>, tpHit: Option<bool>, slType: Option<string>,
    trailingActive: Option<bool>, hasPositionState: bool): Result<State, string>
  {
    if status == "error" then Ok(Failed)
    else if status == "closed" then
      if closeReason == Some("reconcile_gone") then Ok(Reconciled) else Ok(Closed)
    else if status == "open" then
      if !hasPositionState then Ok(Orphaned)
      else if slType == Some("trail") || trailingActive == Some(true) then Ok(TrailingActive)
      else if slType == Some("be") then Ok(BreakevenSet)
      else if tpHit == Some(true) then Ok(PartiallyClosed)
      else Ok(Open)
    else Err("unmapped trades.status")
  }

  // ----- agreement -----

  lemma {:induction false} CaseSkips(whens: seq<When>, n: nat)
    requires n <= |whens| && forall i | 0 <= i < n :: whens[i].condition != True
    ensures Case(whens) == Case(whens[n..])
  {
    if n == 0 {
      assert whens[0..] == whens;
    } else {
      CaseSkips(whens[1..], n - 1);
      assert whens[1..][n - 1..] == whens[n..];
    }
  }

  /** The CASE written as a decision on its eight conditions in turn. */
  lemma CaseOfEight(w: seq<When>)
    requires |w| == 8
    ensures Case(w) ==
      if w[0].condition == True then Some(w[0].result)
      else if w[1].condition == True then Some(w[1].result)
      else if w[2].condition == True then Some(w[2].result)
      else if w[3].condition == True then Some(w[3].result)
      else if w[4].condition == True then Some(w[4].result)
      else if w[5].condition == True then Some(w[5].result)
      else if w[6].condition == True then Some(w[6].result)
      else if w[7].condition == True then Some(w[7].result)
      else None
  {
    var i := 0;
    while i < 8 && w[i].condition != True
      invariant 0 <= i <= 8
      invariant forall j | 0 <= j < i :: w[j].condition != True
    {
      i := i + 1;
    }
    CaseSkips(w, i);
  }

  /**
   For every status, in the vocabulary or not, and every mixture of NULLs, with or without a joined row: the CASE
   yields the name of what the function returns, and NULL exactly where the function raises. Without a row the
   function's column arguments do not matter. Neither yields a transient state.
   */
  lemma BackfillAgreesWithDerive(
      status: string, closeReason: Option<string>, ps: Columns, tradeId: nat,
      tpHit: Option<bool>, slType: Option<string>, trailingActive: Option<bool>)
    ensures
      var joined := ps.(tradeId := Some(tradeId));
      var here := Derive(status, closeReason, ps.tpHit, ps.slType, ps.trailingActive, true);
      var gone := Derive(status, closeReason, tpHit, slType, trailingActive, false);
      && Backfill(status, closeReason, joined) == (if here.Ok? then Some(Name(here.value)) else None)
      && Backfill(status, closeReason, NO_ROW) == (if gone.Ok? then Some(Name(gone.value)) else None)
      && (here.Ok? <==> status in {"open", "closed", "error"})
      && (here.Ok? ==> !Transient(here.value))
      && (gone.Ok? ==> !Transient(gone.value))
  {
    BackfillWithRow(status, closeReason, ps.(tradeId := Some(tradeId)));
    BackfillWithoutRow(status, closeReason, tpHit, slType, trailingActive);
    DeriveIsTotalOnVocabulary(status, closeReason, ps.tpHit, ps.slType, ps.trailingActive, true);
    DeriveIsTotalOnVocabulary(status, closeReason, tpHit, slType, trailingActive, false);
  }

  lemma DeriveIsTotalOnVocabulary(
      status: string, closeReason: Option<string>, tpHit: Option<bool>, slType: Option<string>,
      trailingActive: Option<bool>, hasPositionState: bool)
    ensures
      var d := Derive(status, closeReason, tpHit, slType, trailingActive, hasPositionState);
      (d.Ok? <==> status in {"open", "closed", "error"}) && (d.Ok? ==> !Transient(d.value))
  {
  }

  lemma BackfillWithRow(status: string, closeReason: Option<string>, ps: Columns)
    requires ps.tradeId.Some?
    ensures
      var d := Derive(status, closeReason, ps.tpHit, ps.slType, ps.trailingActive, true);
      Backfill(status, closeReason, ps) == (if d.Ok? then Some(Name(d.value)) else None)
  {
    BackfillByCases(status, closeReason, ps);
  }

  lemma BackfillWithoutRow(
      status: string, closeReason: Option<string>, tpHit: Option<bool>, slType: Option<string>,
      trailingActive: Option<bool>)
    ensures
      var d := Derive(status, closeReason, tpHit, slType, trailingActive, false);
      Backfill(status, closeReason, NO_ROW) == (if d.Ok? then Some(Name(d.value)) else None)
  {
    BackfillByCases(status, closeReason, NO_ROW);
  }

  lemma BackfillByCases(status: string, closeReason: Option<string>, ps: Columns)
    ensures Backfill(status, closeReason, ps) ==
      if status == "error" then Some("failed")
      else if status == "closed" then
        if closeReason == Some("reconcile_gone") then Some("reconciled") else Some("closed")
      else if status == "open" then
        if ps.tradeId.None? then Some("orphaned")
        else if ps.slType == Some("trail") || ps.trailingActive == Some(true) then Some("trailing_active")
        else if ps.slType == Some("be") then Some("breakeven_set")
        else if ps.tpHit == Some(true) then Some("partially_closed")
        else Some("open")
      else None
  {
    CaseOfEight(Whens(status, closeReason, ps));
  }
}
