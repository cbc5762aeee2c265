/**
 * Planning feedback in the browser: one state per plan binding, at most one submission pending in
 * each, and requests whose outcome may stay unconfirmed. Between a request and its answer any
 * other event can happen.
 */
module Feedback {
  import opened Prelude

  type Id = string

  const TABLE_LIMIT := 8
  const RECORD_LIMIT := 32

  datatype Kind = Comment | Revision

  /** A request body; equality of bodies is equality of their canonical JSON. */
  datatype Body = Body(key: string, content: string)

  /** A saved receipt; `valid` says it is well formed and bound to the binding it is read under. */
  datatype Row = Row(receipt: string, valid: bool, kind: Kind, request: Body)

  datatype Pending = Pending(kind: Kind, body: Body, refused: bool)

  datatype State = State(pending: Option<Pending>, busy: bool, records: seq<Row>)

  /** Requests on their way: a submission, a read of the saved feedback, or a material upload, abort or download. */
  datatype Flight = Sending(operation: Pending) | Inspecting | Moving

  /** The table in insertion order, and the requests on their way. */
  datatype World = World(order: seq<Id>, states: map<Id, State>, flights: map<Id, Flight>)

  datatype Response = Receipt(row: Row) | Failed(refusal: bool)

  datatype Reading = Current(rows: seq<Row>) | Stale | ReadFailed

  datatype Event =
    | Refresh(id: Id, rows: seq<Row>)
    | Submit(id: Id, rows: seq<Row>, kind: Kind, body: Body, bodyOk: bool)
    | Retry(id: Id, rows: seq<Row>)
    | SendAnswered(id: Id, response: Response)
    | Inspect(id: Id, rows: seq<Row>)
    | InspectAnswered(id: Id, reading: Reading)
    | EditRefused(id: Id, rows: seq<Row>)
    | MoveMaterial(id: Id, rows: seq<Row>, ready: bool)
    | MaterialMoved(id: Id)

  const FRESH := State(None, false, [])

  // ---------- the state of a binding ----------

  predicate Evictable(s: State) { s.pending.None? && !s.busy }

  /** The first entry that is neither pending nor busy, or the length of the list. */
  function FirstEvictable(order: seq<Id>, states: map<Id, State>): (k: nat)
    ensures k <= |order|
    ensures k < |order| ==> order[k] in states && Evictable(states[order[k]])
    ensures forall i :: 0 <= i < k && order[i] in states ==> !Evictable(states[order[i]])
  {
    if order == [] then 0
    else
      var k := FirstEvictable(order[..|order| - 1], states);
      if k < |order| - 1 then k
      else if order[|order| - 1] in states && Evictable(states[order[|order| - 1]]) then |order| - 1
      else |order|
  }

  /** The world with an entry for `id`, if there is room or something can be evicted. */
  function Ensured(w: World, id: Id): World {
    if id in w.states then w
    else if |w.order| < TABLE_LIMIT then w.(order := w.order + [id], states := w.states[id := FRESH])
    else
      var k := FirstEvictable(w.order, w.states);
      if k == |w.order| then w
      else w.(order := w.order[..k] + w.order[k + 1..] + [id], states := (w.states - {w.order[k]})[id := FRESH])
  }

  predicate Known(records: seq<Row>, row: Row) { exists i :: 0 <= i < |records| && records[i].receipt == row.receipt }

  function Collected(records: seq<Row>, rows: seq<Row>): seq<Row> {
    if rows == [] then records
    else
      var before, last := Collected(records, rows[..|rows| - 1]), rows[|rows| - 1];
      if last.valid && !Known(before, last) then before + [last] else before
  }

  function Trimmed(records: seq<Row>): seq<Row> {
    if |records| > RECORD_LIMIT then records[|records| - RECORD_LIMIT..] else records
  }

  /** A receipt confirms a submission: the same kind and the identical request. */
  predicate Confirms(row: Row, p: Pending) { row.kind == p.kind && row.request == p.body }

  predicate Confirmed(records: seq<Row>, p: Pending) { exists i :: 0 <= i < |records| && Confirms(records[i], p) }

  function Settled(s: State): State {
    if s.pending.Some? && Confirmed(s.records, s.pending.value) then s.(pending := None) else s
  }

  function Absorb(s: State, rows: seq<Row>): State { Settled(s.(records := Trimmed(Collected(s.records, rows)))) }

  /** Looking a binding up with the receipts its view shows; without an entry nothing happens. */
  function Touch(w: World, id: Id, rows: seq<Row>): World {
    var w' := Ensured(w, id);
    if id in w'.states then w'.(states := w'.states[id := Absorb(w'.states[id], rows)]) else w'
  }

  function Accept(s: State, row: Row): State {
    s.(records := if Known(s.records, row) then s.records else s.records + [row], pending := None)
  }

  // ---------- the operations ----------

  /** Sends what is pending, if nothing is on its way. */
  function Send(w: World, id: Id): World {
    if id !in w.states || w.states[id].busy || w.states[id].pending.None? then w
    else
      var op := w.states[id].pending.value.(refused := false);
      w.(states := w.states[id := w.states[id].(busy := true, pending := Some(op))], flights := w.flights[id := Sending(op)])
  }

  function Answered(w: World, id: Id, s: State): World
    requires id in w.states
  {
    w.(states := w.states[id := s.(busy := false)], flights := w.flights - {id})
  }

  function Step(w: World, e: Event): World {
    match e
    case Refresh(id, rows) => Touch(w, id, rows)
    case Submit(id, rows, kind, body, bodyOk) =>
      var t := Touch(w, id, rows);
      if id !in t.states || t.states[id].busy || t.states[id].pending.Some? || !bodyOk then t
      else
        var p := t.(states := t.states[id := t.states[id].(pending := Some(Pending(kind, body, false)))]);
        Send(Touch(p, id, rows), id)
    case Retry(id, rows) => Send(Touch(w, id, rows), id)
    case SendAnswered(id, response) =>
      if id !in w.flights || !w.flights[id].Sending? || id !in w.states then w
      else
        var op, s := w.flights[id].operation, w.states[id];
        (match response
         case Receipt(row) =>
           if row.valid && Confirms(row, op) then Answered(w, id, Accept(s, row)) else Answered(w, id, s)
         case Failed(refusal) =>
           Answered(w, id, if s.pending.Some? then s.(pending := Some(s.pending.value.(refused := refusal))) else s))
    case Inspect(id, rows) =>
      var t := Touch(w, id, rows);
      if id !in t.states || t.states[id].busy || t.states[id].pending.None? then t
      else t.(states := t.states[id := t.states[id].(busy := true)], flights := t.flights[id := Inspecting])
    case InspectAnswered(id, reading) =>
      if id !in w.flights || !w.flights[id].Inspecting? || id !in w.states then w
      else
        var t := if reading.Current? then Touch(w, id, reading.rows) else w;
        if id in t.states then Answered(t, id, t.states[id]) else t
    case EditRefused(id, rows) =>
      var t := Touch(w, id, rows);
      if id !in t.states || t.states[id].busy || t.states[id].pending.None? || !t.states[id].pending.value.refused then t
      else t.(states := t.states[id := t.states[id].(pending := None)])
    case MoveMaterial(id, rows, ready) =>
      var t := Touch(w, id, rows);
      if id !in t.states || t.states[id].busy || t.states[id].pending.Some? || !ready then t
      else t.(states := t.states[id := t.states[id].(busy := true)], flights := t.flights[id := Moving])
    case MaterialMoved(id) =>
      if id !in w.flights || !w.flights[id].Moving? || id !in w.states then w else Answered(w, id, w.states[id])
  }

  function Run(w: World, es: seq<Event>): World {
    if es == [] then w else Step(Run(w, es[..|es| - 1]), es[|es| - 1])
  }

  /** The submission an event puts on the wire, if it does. */
  function Emitted(w: World, e: Event): Option<Body> {
    var w' := Step(w, e);
    if (e.Submit? || e.Retry?) && e.id in w'.flights && w'.flights[e.id].Sending? && !(e.id in w.flights)
    then Some(w'.flights[e.id].operation.body) else None
  }

  // ---------- the invariant ----------

  ghost predicate Distinct(order: seq<Id>) { forall i, j :: 0 <= i < j < |order| ==> order[i] != order[j] }

  ghost predicate Listed(order: seq<Id>, states: map<Id, State>) {
    Distinct(order) && forall id :: id in states <==> id in order
  }

  /**
   * A request is on its way exactly for busy entries, a submission carries the pending body, and no
   * submission is pending while a material moves.
   */
  ghost predicate Flying(w: World, id: Id) {
    && (id in w.flights <==> id in w.states && w.states[id].busy)
    && (id in w.flights && w.flights[id].Sending? && w.states[id].pending.Some? ==>
          w.states[id].pending.value.body == w.flights[id].operation.body
          && w.states[id].pending.value.kind == w.flights[id].operation.kind)
    && (id in w.flights && w.flights[id].Moving? ==> w.states[id].pending.None?)
  }

  ghost predicate Inv(w: World) {
    |w.order| <= TABLE_LIMIT && Listed(w.order, w.states) && forall id :: Flying(w, id)
  }

  /** What looking up one binding does to another: nothing, unless it was idle and is evicted. */
  lemma EnsuredOthers(w: World, id: Id, other: Id)
    requires Inv(w) && other in w.states && !Evictable(w.states[other])
    ensures other in Ensured(w, id).states && Ensured(w, id).states[other] == w.states[other]
  {
  }

  lemma ReplaceAt(order: seq<Id>, states: map<Id, State>, k: nat, id: Id)
    requires Listed(order, states) && k < |order| && id !in states
    ensures Listed(order[..k] + order[k + 1..] + [id], (states - {order[k]})[id := FRESH])
  {
    var order' := order[..k] + order[k + 1..] + [id];
    forall x ensures x in (states - {order[k]})[id := FRESH] <==> x in order' {
      if x in order && x != order[k] {
        var i :| 0 <= i < |order| && order[i] == x;
        assert order'[if i < k then i else i - 1] == x;
      }
      if x == id { assert order'[|order'| - 1] == x; }
    }
  }

  lemma EnsuredListed(w: World, id: Id)
    requires |w.order| <= TABLE_LIMIT && Listed(w.order, w.states) && id !in w.states
    ensures |Ensured(w, id).order| <= TABLE_LIMIT && Listed(Ensured(w, id).order, Ensured(w, id).states)
  {
    if |w.order| < TABLE_LIMIT {
      assert forall x :: x in w.order + [id] <==> x in w.order || x == id;
    } else {
      var k := FirstEvictable(w.order, w.states);
      if k < |w.order| { ReplaceAt(w.order, w.states, k, id); }
    }
  }

  lemma EnsuredKeeps(w: World, id: Id)
    requires Inv(w)
    ensures Inv(Ensured(w, id)) && Ensured(w, id).flights == w.flights
  {
    var w' := Ensured(w, id);
    if id !in w.states {
      EnsuredListed(w, id);
      forall x ensures Flying(w', x) { assert Flying(w, x); assert Flying(w, id); }
    }
  }

  lemma SetState(w: World, id: Id, s: State)
    requires Inv(w) && id in w.states && s.busy == w.states[id].busy
    requires s.pending.Some? && id in w.flights ==>
               w.states[id].pending.Some? && s.pending.value.body == w.states[id].pending.value.body
               && s.pending.value.kind == w.states[id].pending.value.kind
    ensures Inv(w.(states := w.states[id := s]))
  {
    var w' := w.(states := w.states[id := s]);
    forall x ensures Flying(w', x) { assert Flying(w, x); }
  }

  lemma TouchKeeps(w: World, id: Id, rows: seq<Row>)
    requires Inv(w)
    ensures Inv(Touch(w, id, rows)) && Touch(w, id, rows).flights == w.flights
  {
    EnsuredKeeps(w, id);
    var w' := Ensured(w, id);
    if id in w'.states { SetState(w', id, Absorb(w'.states[id], rows)); }
  }

  lemma SendKeeps(w: World, id: Id)
    requires Inv(w)
    ensures Inv(Send(w, id))
  {
    var w' := Send(w, id);
    forall x ensures Flying(w', x) { assert Flying(w, x); }
  }

  lemma AnsweredKeeps(w: World, id: Id, s: State)
    requires Inv(w) && id in w.states
    ensures Inv(Answered(w, id, s))
  {
    var w' := Answered(w, id, s);
    forall x ensures Flying(w', x) { assert Flying(w, x); }
  }

  lemma InspectKeeps(w: World, id: Id)
    requires Inv(w) && id in w.states && !w.states[id].busy
    ensures Inv(w.(states := w.states[id := w.states[id].(busy := true)], flights := w.flights[id := Inspecting]))
  {
    var w' := w.(states := w.states[id := w.states[id].(busy := true)], flights := w.flights[id := Inspecting]);
    forall x ensures Flying(w', x) { assert Flying(w, x); }
  }

  lemma MoveKeeps(w: World, id: Id)
    requires Inv(w) && id in w.states && !w.states[id].busy && w.states[id].pending.None?
    ensures Inv(w.(states := w.states[id := w.states[id].(busy := true)], flights := w.flights[id := Moving]))
  {
    var w' := w.(states := w.states[id := w.states[id].(busy := true)], flights := w.flights[id := Moving]);
    forall x ensures Flying(w', x) { assert Flying(w, x); }
  }

  lemma SubmitKeeps(w: World, id: Id, rows: seq<Row>, kind: Kind, body: Body, bodyOk: bool)
    requires Inv(w)
    ensures Inv(Step(w, Submit(id, rows, kind, body, bodyOk)))
  {
    TouchKeeps(w, id, rows);
    var t := Touch(w, id, rows);
    if !(id !in t.states || t.states[id].busy || t.states[id].pending.Some? || !bodyOk) {
      assert Flying(t, id);
      var s := t.states[id].(pending := Some(Pending(kind, body, false)));
      SetState(t, id, s);
      var p := t.(states := t.states[id := s]);
      TouchKeeps(p, id, rows);
      SendKeeps(Touch(p, id, rows), id);
    }
  }

  lemma StepKeeps(w: World, e: Event)
    requires Inv(w)
    ensures Inv(Step(w, e))
  {
    match e {
      case Refresh(id, rows) => TouchKeeps(w, id, rows);
      case Submit(id, rows, kind, body, bodyOk) => SubmitKeeps(w, id, rows, kind, body, bodyOk);
      case Retry(id, rows) =>
        TouchKeeps(w, id, rows);
        SendKeeps(Touch(w, id, rows), id);
      case SendAnswered(id, response) =>
        if id in w.states {
          var s := w.states[id];
          match response {
            case Receipt(row) => AnsweredKeeps(w, id, Accept(s, row)); AnsweredKeeps(w, id, s);
            case Failed(refusal) =>
              AnsweredKeeps(w, id, if s.pending.Some? then s.(pending := Some(s.pending.value.(refused := refusal))) else s);
          }
        }
      case Inspect(id, rows) =>
        TouchKeeps(w, id, rows);
        var t := Touch(w, id, rows);
        if id in t.states && !t.states[id].busy { InspectKeeps(t, id); }
      case InspectAnswered(id, reading) =>
        if reading.Current? { TouchKeeps(w, id, reading.rows); }
        var t := if reading.Current? then Touch(w, id, reading.rows) else w;
        if id in t.states { AnsweredKeeps(t, id, t.states[id]); }
      case EditRefused(id, rows) =>
        TouchKeeps(w, id, rows);
        var t := Touch(w, id, rows);
        if id in t.states { SetState(t, id, t.states[id].(pending := None)); }
      case MoveMaterial(id, rows, _) =>
        TouchKeeps(w, id, rows);
        var t := Touch(w, id, rows);
        if id in t.states && !t.states[id].busy && t.states[id].pending.None? { MoveKeeps(t, id); }
      case MaterialMoved(id) => if id in w.states { AnsweredKeeps(w, id, w.states[id]); }
    }
  }

  const EMPTY := World([], map[], map[])

  /** In every reachable state the table holds at most eight entries, in step with the requests on their way. */
  lemma {:induction false} TableBounded(es: seq<Event>)
    ensures Inv(Run(EMPTY, es)) && |Run(EMPTY, es).states| <= TABLE_LIMIT
  {
    if es == [] {
      assert forall id :: Flying(EMPTY, id);
    } else {
      TableBounded(es[..|es| - 1]);
      StepKeeps(Run(EMPTY, es[..|es| - 1]), es[|es| - 1]);
    }
    var w := Run(EMPTY, es);
    assert w.states.Keys == set i | 0 <= i < |w.order| :: w.order[i] by {
      forall id ensures id in w.states.Keys <==> id in (set i | 0 <= i < |w.order| :: w.order[i]) { }
    }
    ImageBound(w.order);
  }

  lemma {:induction false} ImageBound(order: seq<Id>)
    ensures |set i | 0 <= i < |order| :: order[i]| <= |order|
  {
    var s := set i | 0 <= i < |order| :: order[i];
    if order == [] {
      assert s == {};
    } else {
      var n := |order| - 1;
      var t := set i | 0 <= i < n :: order[..n][i];
      ImageBound(order[..n]);
      assert s == t + {order[n]} by {
        forall x ensures x in s <==> x in t + {order[n]} {
          if x in t { var i :| 0 <= i < n && order[..n][i] == x; assert order[i] == x; }
          if x in s { var i :| 0 <= i < |order| && order[i] == x; if i < n { assert order[..n][i] == x; } }
        }
      }
    }
  }
}
