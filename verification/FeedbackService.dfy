/** The feedback table as an object whose entries are updated across requests and answers. */
module FeedbackService {
  import opened Prelude
  import opened Feedback

  class FeedbackTable {
    var order: seq<Id>
    var states: map<Id, State>
    var flights: map<Id, Flight>

    ghost function View(): World
      reads this
    {
      World(order, states, flights)
    }

    ghost predicate Valid()
      reads this
    {
      Inv(View())
    }

    constructor ()
      ensures Valid() && View() == EMPTY
    {
      order, states, flights := [], map[], map[];
      new;
      assert forall id :: Flying(View(), id);
    }

    /** Makes room for a binding, evicting the oldest entry that is neither pending nor busy. */
    method MakeEntry(id: Id) returns (found: bool)
      modifies this
      ensures View() == Ensured(old(View()), id) && found == (id in states)
    {
      if id in states { return true; }
      if |order| >= TABLE_LIMIT {
        var k := 0;
        while k < |order| && (order[k] !in states || !Evictable(states[order[k]]))
          invariant k <= |order|
          invariant forall i :: 0 <= i < k && order[i] in states ==> !Evictable(states[order[i]])
        {
          k := k + 1;
        }
        FirstIsUnique(order, states, k);
        if k == |order| { return false; }
        states := states - {order[k]};
        order := order[..k] + order[k + 1..];
      }
      order, states := order + [id], states[id := FRESH];
      found := true;
    }

    /** Looks a binding up, records the receipts its view shows, and settles what they confirm. */
    method Lookup(id: Id, rows: seq<Row>) returns (found: bool)
      modifies this
      ensures View() == Touch(old(View()), id, rows) && found == (id in states)
    {
      found := MakeEntry(id);
      if !found { return; }
      var s := states[id];
      var records := s.records;
      for i := 0 to |rows|
        invariant records == Collected(s.records, rows[..i])
      {
        assert rows[..i + 1][..i] == rows[..i];
        if rows[i].valid && !Known(records, rows[i]) { records := records + [rows[i]]; }
      }
      assert rows[..|rows|] == rows;
      if |records| > RECORD_LIMIT { records := records[|records| - RECORD_LIMIT..]; }
      s := s.(records := records);
      if s.pending.Some? && Confirmed(records, s.pending.value) { s := s.(pending := None); }
      states := states[id := s];
    }

    method SendPending(id: Id)
      modifies this
      ensures View() == Send(old(View()), id)
    {
      if id !in states || states[id].busy || states[id].pending.None? { return; }
      var op := states[id].pending.value.(refused := false);
      states := states[id := states[id].(busy := true, pending := Some(op))];
      flights := flights[id := Sending(op)];
    }

    method SubmitFeedback(id: Id, rows: seq<Row>, kind: Kind, body: Body, bodyOk: bool)
      requires Valid()
      modifies this
      ensures Valid() && View() == Step(old(View()), Submit(id, rows, kind, body, bodyOk))
    {
      StepKeeps(View(), Submit(id, rows, kind, body, bodyOk));
      var found := Lookup(id, rows);
      if !found || states[id].busy || states[id].pending.Some? || !bodyOk { return; }
      states := states[id := states[id].(pending := Some(Pending(kind, body, false)))];
      var again := Lookup(id, rows);
      SendPending(id);
    }

    method RetryFeedback(id: Id, rows: seq<Row>)
      requires Valid()
      modifies this
      ensures Valid() && View() == Step(old(View()), Retry(id, rows))
    {
      StepKeeps(View(), Retry(id, rows));
      var found := Lookup(id, rows);
      if found { SendPending(id); }
    }

    method AnswerSend(id: Id, response: Response)
      requires Valid()
      modifies this
      ensures Valid() && View() == Step(old(View()), SendAnswered(id, response))
    {
      StepKeeps(View(), SendAnswered(id, response));
      if id !in flights || !flights[id].Sending? || id !in states { return; }
      var op, s := flights[id].operation, states[id];
      if response.Receipt? {
        if response.row.valid && Confirms(response.row, op) {
          if !Known(s.records, response.row) { s := s.(records := s.records + [response.row]); }
          s := s.(pending := None);
        }
      } else if s.pending.Some? {
        s := s.(pending := Some(s.pending.value.(refused := response.refusal)));
      }
      states := states[id := s.(busy := false)];
      flights := flights - {id};
    }

    method InspectFeedback(id: Id, rows: seq<Row>)
      requires Valid()
      modifies this
      ensures Valid() && View() == Step(old(View()), Inspect(id, rows))
    {
      StepKeeps(View(), Inspect(id, rows));
      var found := Lookup(id, rows);
      if !found || states[id].busy || states[id].pending.None? { return; }
      states := states[id := states[id].(busy := true)];
      flights := flights[id := Inspecting];
    }

    method AnswerInspect(id: Id, reading: Reading)
      requires Valid()
      modifies this
      ensures Valid() && View() == Step(old(View()), InspectAnswered(id, reading))
    {
      StepKeeps(View(), InspectAnswered(id, reading));
      if id !in flights || !flights[id].Inspecting? || id !in states { return; }
      if reading.Current? { var found := Lookup(id, reading.rows); }
      if id in states {
        states := states[id := states[id].(busy := false)];
        flights := flights - {id};
      }
    }

    method EditRefusedFeedback(id: Id, rows: seq<Row>)
      requires Valid()
      modifies this
      ensures Valid() && View() == Step(old(View()), EditRefused(id, rows))
    {
      StepKeeps(View(), EditRefused(id, rows));
      var found := Lookup(id, rows);
      if !found || states[id].busy || states[id].pending.None? || !states[id].pending.value.refused { return; }
      states := states[id := states[id].(pending := None)];
    }

    /** Starts moving a material: an upload, an abort or a download. */
    method MoveFeedbackMaterial(id: Id, rows: seq<Row>, ready: bool)
      requires Valid()
      modifies this
      ensures Valid() && View() == Step(old(View()), MoveMaterial(id, rows, ready))
    {
      StepKeeps(View(), MoveMaterial(id, rows, ready));
      var found := Lookup(id, rows);
      if !found || states[id].busy || states[id].pending.Some? || !ready { return; }
      states := states[id := states[id].(busy := true)];
      flights := flights[id := Moving];
    }

    method AnswerMove(id: Id)
      requires Valid()
      modifies this
      ensures Valid() && View() == Step(old(View()), MaterialMoved(id))
    {
      StepKeeps(View(), MaterialMoved(id));
      if id !in flights || !flights[id].Moving? || id !in states { return; }
      states := states[id := states[id].(busy := false)];
      flights := flights - {id};
    }
  }

  lemma FirstIsUnique(order: seq<Id>, states: map<Id, State>, k: nat)
    requires k <= |order| && (k < |order| ==> order[k] in states && Evictable(states[order[k]]))
    requires forall i :: 0 <= i < k && order[i] in states ==> !Evictable(states[order[i]])
    ensures k == FirstEvictable(order, states)
  {
  }
}
