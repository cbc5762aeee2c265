/** What happens to a submission once it is sent, over every interleaving of events. */
module FeedbackTheorems {
  import opened Prelude
  import opened Feedback

  /** Submission `p`, refused or not, is what the entry of `id` is waiting on. */
  ghost predicate Waiting(w: World, id: Id, p: Pending) {
    && id in w.states && w.states[id].pending.Some?
    && w.states[id].pending.value.body == p.body && w.states[id].pending.value.kind == p.kind
  }

  /** The receipts an event brings: those of the view it reads, or the answer to a submission. */
  function Delivered(e: Event): seq<Row> {
    match e
    case SendAnswered(_, response) => if response.Receipt? then [response.row] else []
    case InspectAnswered(_, reading) => if reading.Current? then reading.rows else []
    case MaterialMoved(_) => []
    case _ => e.rows
  }

  /** A receipt of the same kind for the identical request is on record or arrives with the event. */
  ghost predicate Saw(w: World, e: Event, id: Id, p: Pending)
    requires id in w.states
  {
    e.id == id && exists row :: Confirms(row, p) && (row in w.states[id].records || (row in Delivered(e) && row.valid))
  }

  /** The user explicitly goes back to editing a request the server refused. */
  ghost predicate GivenUp(w: World, e: Event, id: Id) {
    && e.EditRefused? && e.id == id && id in w.states && !w.states[id].busy
    && w.states[id].pending.Some? && w.states[id].pending.value.refused
  }

  lemma {:induction false} CollectedFrom(records: seq<Row>, rows: seq<Row>, row: Row)
    requires row in Collected(records, rows)
    ensures row in records || (row in rows && row.valid)
  {
    if rows != [] {
      var before := Collected(records, rows[..|rows| - 1]);
      if row in before { CollectedFrom(records, rows[..|rows| - 1], row); }
    }
  }

  lemma AbsorbWaits(s: State, rows: seq<Row>, p: Pending)
    requires s.pending.Some? && s.pending.value.body == p.body && s.pending.value.kind == p.kind
    ensures var s' := Absorb(s, rows);
            && s'.busy == s.busy
            && (s'.pending == s.pending
                || (s'.pending == None && exists row :: Confirms(row, p) && (row in s.records || (row in rows && row.valid))))
  {
    var all := Collected(s.records, rows);
    var records := Trimmed(all);
    if Confirmed(records, s.pending.value) {
      var i :| 0 <= i < |records| && Confirms(records[i], s.pending.value);
      assert records[i] in all && Confirms(records[i], p);
      CollectedFrom(s.records, rows, records[i]);
    }
  }

  lemma TouchOwn(w: World, id: Id, rows: seq<Row>, p: Pending)
    requires Inv(w) && Waiting(w, id, p)
    ensures var t := Touch(w, id, rows);
            && id in t.states && t.states[id].busy == w.states[id].busy && t.flights == w.flights
            && (t.states[id].pending == w.states[id].pending
                || (t.states[id].pending == None
                    && exists row :: Confirms(row, p) && (row in w.states[id].records || (row in rows && row.valid))))
  {
    AbsorbWaits(w.states[id], rows, p);
  }

  lemma TouchOther(w: World, other: Id, rows: seq<Row>, id: Id)
    requires Inv(w) && id in w.states && !Evictable(w.states[id]) && other != id
    ensures id in Touch(w, other, rows).states && Touch(w, other, rows).states[id] == w.states[id]
  {
    EnsuredOthers(w, other, id);
  }

  /** An event of another binding leaves a pending or busy entry as it is: it is never evicted. */
  lemma StepOfOther(w: World, e: Event, id: Id)
    requires Inv(w) && id in w.states && !Evictable(w.states[id]) && e.id != id
    ensures id in Step(w, e).states && Step(w, e).states[id] == w.states[id]
  {
    match e {
      case SendAnswered(_, _) =>
      case MaterialMoved(_) =>
      case InspectAnswered(other, reading) => if reading.Current? { TouchOther(w, other, reading.rows, id); }
      case Submit(other, rows, kind, body, _) =>
        TouchOther(w, other, rows, id);
        TouchKeeps(w, other, rows);
        var t := Touch(w, other, rows);
        if other in t.states && !t.states[other].busy && t.states[other].pending.None? {
          assert Flying(t, other);
          var s := t.states[other].(pending := Some(Pending(kind, body, false)));
          SetState(t, other, s);
          TouchOther(t.(states := t.states[other := s]), other, rows, id);
        }
      case _ => TouchOther(w, e.id, e.rows, id);
    }
  }

  lemma StepOfOwn(w: World, e: Event, id: Id, p: Pending)
    requires Inv(w) && Waiting(w, id, p) && e.id == id
    ensures Waiting(Step(w, e), id, p) || Saw(w, e, id, p) || GivenUp(w, e, id)
  {
    assert Flying(w, id);
    match e {
      case SendAnswered(_, response) =>
        if response.Receipt? && response.row.valid && id in w.flights && w.flights[id].Sending?
           && Confirms(response.row, w.flights[id].operation) {
          assert Confirms(response.row, p) && response.row in Delivered(e);
        }
      case InspectAnswered(_, reading) => if reading.Current? { TouchOwn(w, id, reading.rows, p); }
      case MaterialMoved(_) =>
      case _ => TouchOwn(w, id, e.rows, p);
    }
  }

  /**
   * A submission stops being pending only on a receipt of the same kind for the identical request,
   * or when the user goes back to editing a refused one.
   */
  lemma PendingStep(w: World, e: Event, id: Id, p: Pending)
    requires Inv(w) && Waiting(w, id, p)
    ensures Waiting(Step(w, e), id, p) || Saw(w, e, id, p) || GivenUp(w, e, id)
  {
    if e.id == id { StepOfOwn(w, e, id, p); } else { StepOfOther(w, e, id); }
  }

  /** While it is pending, whatever is put on the wire for its binding is the same request. */
  lemma ResendIsIdentical(w: World, e: Event, id: Id, p: Pending)
    requires Inv(w) && Waiting(w, id, p) && e.id == id && Emitted(w, e).Some?
    ensures Emitted(w, e) == Some(p.body) || Saw(w, e, id, p)
  {
    assert Flying(w, id);
    TouchOwn(w, id, e.rows, p);
  }

  /** An undecided stretch of events: no receipt for `p` shows up, and it is not given up. */
  ghost predicate Undecided(w: World, es: seq<Event>, id: Id, p: Pending) {
    es == [] ||
      var n := |es| - 1;
      var v := Run(w, es[..n]);
      Undecided(w, es[..n], id, p) && (id in v.states ==> !Saw(v, es[n], id, p)) && !GivenUp(v, es[n], id)
  }

  /**
   * Through any undecided stretch of events, of this and any other binding, the submission stays
   * pending, its entry stays in the table, and every request sent for its binding is the same
   * request, so no other key is created.
   */
  lemma {:induction false} SubmissionPersists(w: World, es: seq<Event>, id: Id, p: Pending)
    requires Inv(w) && Waiting(w, id, p) && Undecided(w, es, id, p)
    ensures Inv(Run(w, es)) && Waiting(Run(w, es), id, p)
    ensures forall k :: 0 <= k < |es| && es[k].id == id ==> Emitted(Run(w, es[..k]), es[k]) in {None, Some(p.body)}
  {
    if es != [] {
      var n := |es| - 1;
      SubmissionPersists(w, es[..n], id, p);
      var v := Run(w, es[..n]);
      StepKeeps(v, es[n]);
      PendingStep(v, es[n], id, p);
      forall k | 0 <= k < |es| && es[k].id == id ensures Emitted(Run(w, es[..k]), es[k]) in {None, Some(p.body)} {
        if k < n {
          assert es[..n][..k] == es[..k] && es[..n][k] == es[k];
        } else if Emitted(v, es[n]).Some? {
          ResendIsIdentical(v, es[n], id, p);
        }
      }
    }
  }
}
