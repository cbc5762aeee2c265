/** What each feedback event achieves: when a submission ends, when a request goes out, who is evicted. */
module FeedbackAnswers {
  import opened Prelude
  import opened Feedback
  import opened FeedbackTheorems

  // ---------- receipts ----------

  /** The receipts an entry keeps after looking at a view. */
  function Kept(records: seq<Row>, rows: seq<Row>): seq<Row> { Trimmed(Collected(records, rows)) }

  /** The first valid row of its receipt, which is not on record yet. */
  ghost predicate NewAt(records: seq<Row>, rows: seq<Row>, i: int) {
    && 0 <= i < |rows| && rows[i].valid && (forall k :: 0 <= k < |records| ==> records[k].receipt != rows[i].receipt)
    && (forall k :: 0 <= k < i && rows[k].valid ==> rows[k].receipt != rows[i].receipt)
  }

  ghost predicate Gathered(records: seq<Row>, rows: seq<Row>, row: Row) {
    row in records || exists i :: NewAt(records, rows, i) && rows[i] == row
  }

  lemma KnownIff(records: seq<Row>, row: Row)
    ensures Known(records, row) <==> exists r :: r in records && r.receipt == row.receipt
  {
    if Known(records, row) { var i :| 0 <= i < |records| && records[i].receipt == row.receipt; assert records[i] in records; }
  }

  lemma NewAtPrefix(records: seq<Row>, rows: seq<Row>, n: nat, i: nat)
    requires i < n <= |rows|
    ensures NewAt(records, rows, i) <==> NewAt(records, rows[..n], i)
  {
    assert forall k :: 0 <= k <= i ==> rows[..n][k] == rows[k];
  }

  lemma GatheredLast(records: seq<Row>, rows: seq<Row>, n: nat, row: Row)
    requires |rows| == n + 1
    ensures Gathered(records, rows, row) <==> Gathered(records, rows[..n], row) || (NewAt(records, rows, n) && rows[n] == row)
  {
    forall i | 0 <= i < n ensures NewAt(records, rows, i) <==> NewAt(records, rows[..n], i) { NewAtPrefix(records, rows, n, i); }
    if exists i :: NewAt(records, rows, i) && rows[i] == row {
      var i :| NewAt(records, rows, i) && rows[i] == row;
      if i < n { assert rows[..n][i] == row; }
    }
    if exists i :: NewAt(records, rows[..n], i) && rows[..n][i] == row {
      var i :| NewAt(records, rows[..n], i) && rows[..n][i] == row;
      assert NewAt(records, rows, i) && rows[i] == row;
    }
  }

  /** Looking at a view adds, after what is on record, the first valid row of every receipt not on record. */
  lemma {:induction false} CollectedExact(records: seq<Row>, rows: seq<Row>)
    ensures records <= Collected(records, rows)
    ensures forall row :: row in Collected(records, rows) <==> Gathered(records, rows, row)
  {
    if rows != [] {
      var n := |rows| - 1;
      CollectedExact(records, rows[..n]);
      var before := Collected(records, rows[..n]);
      FirstOfReceipt(records, rows, n);
      forall row ensures row in Collected(records, rows) <==> Gathered(records, rows, row) {
        GatheredLast(records, rows, n, row);
        assert row in before <==> Gathered(records, rows[..n], row);
      }
    }
  }

  lemma FirstOfReceipt(records: seq<Row>, rows: seq<Row>, n: nat)
    requires |rows| == n + 1 && forall row :: row in Collected(records, rows[..n]) <==> Gathered(records, rows[..n], row)
    ensures rows[n].valid && !Known(Collected(records, rows[..n]), rows[n]) <==> NewAt(records, rows, n)
  {
    var before, last := Collected(records, rows[..n]), rows[n];
    KnownIff(before, last);
    if NewAt(records, rows, n) {
      forall r | r in before ensures r.receipt != last.receipt {
        assert Gathered(records, rows[..n], r);
        if r !in records { var i :| NewAt(records, rows[..n], i) && rows[..n][i] == r; assert rows[i] == r; }
      }
    }
    if last.valid && !Known(before, last) {
      forall k | 0 <= k < |records| ensures records[k].receipt != last.receipt { assert Gathered(records, rows[..n], records[k]); }
      forall k | 0 <= k < n && rows[k].valid ensures rows[k].receipt != last.receipt { ReceiptGathered(records, rows[..n], k); }
    }
  }

  /** Every valid row of a view has its receipt on record afterwards. */
  lemma {:induction false} ReceiptGathered(records: seq<Row>, rows: seq<Row>, k: nat)
    requires k < |rows| && rows[k].valid
    ensures exists r :: Gathered(records, rows, r) && r.receipt == rows[k].receipt
  {
    if i :| 0 <= i < |records| && records[i].receipt == rows[k].receipt {
      assert Gathered(records, rows, records[i]);
    } else if i :| 0 <= i < k && rows[i].valid && rows[i].receipt == rows[k].receipt {
      ReceiptGathered(records, rows, i);
    } else {
      assert NewAt(records, rows, k);
      assert Gathered(records, rows, rows[k]);
    }
  }

  /** An entry keeps the last 32 receipts. */
  lemma KeptAreLast(records: seq<Row>, rows: seq<Row>)
    ensures var all, kept := Collected(records, rows), Kept(records, rows);
            |kept| <= 32 && |kept| <= |all| && kept == all[|all| - |kept|..] && (|kept| < 32 ==> kept == all)
  {
  }

  // ---------- when a submission ends ----------

  ghost predicate ConfirmedBy(rows: seq<Row>, p: Pending) { exists row :: row in rows && row.kind == p.kind && row.request == p.body }

  lemma ConfirmedIff(rows: seq<Row>, p: Pending)
    ensures Confirmed(rows, p) <==> ConfirmedBy(rows, p)
  {
    if Confirmed(rows, p) { var i :| 0 <= i < |rows| && Confirms(rows[i], p); assert rows[i] in rows; }
  }

  /** The event brings the receipt of the submission: as the answer to it, or in a view whose receipts are kept. */
  ghost predicate Settles(w: World, e: Event, id: Id, p: Pending)
    requires id in w.states
  {
    e.id == id &&
    match e
    case SendAnswered(_, response) =>
      && id in w.flights && w.flights[id].Sending? && response.Receipt? && response.row.valid
      && response.row.kind == p.kind && response.row.request == p.body
    case InspectAnswered(_, reading) =>
      id in w.flights && w.flights[id].Inspecting? && reading.Current? && ConfirmedBy(Kept(w.states[id].records, reading.rows), p)
    case MaterialMoved(_) => false
    case _ => ConfirmedBy(Kept(w.states[id].records, e.rows), p)
  }

  lemma LookupSettles(w: World, id: Id, rows: seq<Row>, p: Pending)
    requires Inv(w) && Waiting(w, id, p)
    ensures var t := Touch(w, id, rows);
            && id in t.states && t.states[id].busy == w.states[id].busy && t.flights == w.flights
            && t.states[id].records == Kept(w.states[id].records, rows)
            && t.states[id].pending == if ConfirmedBy(Kept(w.states[id].records, rows), p) then None else w.states[id].pending
  {
    ConfirmedIff(Kept(w.states[id].records, rows), w.states[id].pending.value);
  }

  /** A new submission gets a key of its own. */
  ghost predicate FreshKey(e: Event, p: Pending) { e.Submit? ==> e.body.key != p.body.key }

  lemma OwnEventSettles(w: World, e: Event, id: Id, p: Pending)
    requires Inv(w) && Waiting(w, id, p) && e.id == id && FreshKey(e, p)
    ensures Waiting(Step(w, e), id, p) <==> !Settles(w, e, id, p) && !GivenUp(w, e, id)
  {
    assert Flying(w, id);
    match e
    case SendAnswered(_, _) =>
    case InspectAnswered(_, reading) => if reading.Current? { LookupSettles(w, id, reading.rows, p); }
    case MaterialMoved(_) =>
    case Submit(_, rows, kind, body, bodyOk) => SubmitWaits(w, id, rows, kind, body, bodyOk, p);
    case _ => LookupSettles(w, id, e.rows, p);
  }

  lemma SubmitWaits(w: World, id: Id, rows: seq<Row>, kind: Kind, body: Body, bodyOk: bool, p: Pending)
    requires Inv(w) && Waiting(w, id, p) && body.key != p.body.key
    ensures Waiting(Step(w, Submit(id, rows, kind, body, bodyOk)), id, p) <==> !ConfirmedBy(Kept(w.states[id].records, rows), p)
  {
    LookupSettles(w, id, rows, p);
  }

  /**
   * A submission stops being pending if and only if its receipt, of the same kind and for the identical
   * request, comes as an answer or in a view, or the user goes back to editing a refused one.
   */
  lemma PendingEndsIff(w: World, e: Event, id: Id, p: Pending)
    requires Inv(w) && Waiting(w, id, p) && FreshKey(e, p)
    ensures Waiting(Step(w, e), id, p) <==> !Settles(w, e, id, p) && !GivenUp(w, e, id)
  {
    if e.id == id { OwnEventSettles(w, e, id, p); } else { StepOfOther(w, e, id); }
  }

  /** What the answer to a submission leaves: the entry free again, and settled, refused or still unconfirmed. */
  lemma AnswerMeans(w: World, id: Id, response: Response, p: Pending)
    requires Inv(w) && Waiting(w, id, p) && id in w.flights && w.flights[id].Sending?
    ensures var w' := Step(w, SendAnswered(id, response));
            && id in w'.states && id !in w'.flights && !w'.states[id].busy
            && (match response
                case Receipt(row) =>
                  if row.valid && row.kind == p.kind && row.request == p.body
                  then && w'.states[id].pending == None
                       && w'.states[id].records == (if exists r :: r in w.states[id].records && r.receipt == row.receipt
                                                    then w.states[id].records else w.states[id].records + [row])
                  else w'.states[id].pending == w.states[id].pending && w'.states[id].records == w.states[id].records
                case Failed(refusal) =>
                  w'.states[id].pending == Some(w.states[id].pending.value.(refused := refusal))
                  && w'.states[id].records == w.states[id].records)
  {
    assert Flying(w, id);
    if response.Receipt? {
      KnownIff(w.states[id].records, response.row);
    }
  }

  // ---------- entries ----------

  /** There is an entry, or room for one, or an idle entry to give up. */
  ghost predicate Available(w: World, id: Id) {
    id in w.states || |w.order| < 8 || exists x :: x in w.states && w.states[x].pending == None && !w.states[x].busy
  }

  /** The binding has an entry after a look-up if and only if one is available; a new one is blank. */
  lemma EntryMadeIff(w: World, id: Id)
    requires Inv(w)
    ensures id in Ensured(w, id).states <==> Available(w, id)
    ensures id !in w.states && Available(w, id) ==> Ensured(w, id).states[id] == FRESH
    ensures Ensured(w, id).flights == w.flights
  {
    var k := FirstEvictable(w.order, w.states);
    if x :| x in w.states && Evictable(w.states[x]) {
      var i :| 0 <= i < |w.order| && w.order[i] == x;
      assert !(i < k);
    }
  }

  /** Only a full table evicts, only for a new binding, and then the first idle entry in order of arrival and no other. */
  lemma EvictsFirstIdle(w: World, id: Id, other: Id)
    requires Inv(w) && other in w.states
    ensures other !in Ensured(w, id).states <==>
              && id !in w.states && |w.order| == 8
              && exists k :: 0 <= k < |w.order| && w.order[k] == other && w.states[other].pending == None && !w.states[other].busy
                             && forall i :: 0 <= i < k && w.order[i] in w.states ==> w.states[w.order[i]].pending.Some? || w.states[w.order[i]].busy
    ensures other in Ensured(w, id).states ==> Ensured(w, id).states[other] == w.states[other]
  {
    var k := FirstEvictable(w.order, w.states);
    if id !in w.states && |w.order| == TABLE_LIMIT {
      assert k < |w.order| ==> Evictable(w.states[w.order[k]]);
      forall j | 0 <= j < |w.order| && w.order[j] in w.states && Evictable(w.states[w.order[j]])
                 && (forall i :: 0 <= i < j && w.order[i] in w.states ==> !Evictable(w.states[w.order[i]]))
        ensures j == k
      {
      }
    }
  }

  // ---------- when a request goes out ----------

  /** The binding has, or can be given, an entry that is neither pending nor busy. */
  ghost predicate Idle(w: World, id: Id) {
    Available(w, id) && (id in w.states ==> !w.states[id].busy && w.states[id].pending == None)
  }

  function RecordsOf(w: World, id: Id): seq<Row> { if id in w.states then w.states[id].records else [] }

  lemma IdleLookup(w: World, id: Id, rows: seq<Row>)
    requires Inv(w) && Idle(w, id)
    ensures var t := Touch(w, id, rows);
            && id in t.states && t.states[id] == State(None, false, Kept(RecordsOf(w, id), rows)) && t.flights == w.flights
  {
    EntryMadeIff(w, id);
  }

  /** A receipt on record or in the view already answers the request; with a key of its own none does. */
  ghost predicate AnsweredAlready(w: World, id: Id, rows: seq<Row>, p: Pending) {
    exists row :: (row in RecordsOf(w, id) || (row in rows && row.valid)) && row.kind == p.kind && row.request == p.body
  }

  lemma KeptFrom(records: seq<Row>, rows: seq<Row>, row: Row)
    requires row in Kept(records, rows)
    ensures row in records || (row in rows && row.valid)
  {
    CollectedFrom(records, rows, row);
  }

  /** Submitting a sound body on an idle binding records it as pending and puts it on the wire. */
  lemma SubmitSends(w: World, id: Id, rows: seq<Row>, kind: Kind, body: Body)
    requires Inv(w) && Idle(w, id) && !AnsweredAlready(w, id, rows, Pending(kind, body, false))
    ensures var e := Submit(id, rows, kind, body, true);
            var w' := Step(w, e);
            && id in w'.states && w'.states[id].busy && w'.states[id].pending == Some(Pending(kind, body, false))
            && id in w'.flights && w'.flights[id] == Sending(Pending(kind, body, false)) && Emitted(w, e) == Some(body)
  {
    var p := Pending(kind, body, false);
    assert Flying(w, id);
    IdleLookup(w, id, rows);
    var t := Touch(w, id, rows);
    TouchKeeps(w, id, rows);
    assert Flying(t, id);
    var s := t.states[id].(pending := Some(p));
    SetState(t, id, s);
    var u := t.(states := t.states[id := s]);
    assert !ConfirmedBy(Kept(s.records, rows), p) by {
      if ConfirmedBy(Kept(s.records, rows), p) {
        var row :| row in Kept(s.records, rows) && row.kind == p.kind && row.request == p.body;
        KeptFrom(s.records, rows, row);
        if row in s.records { KeptFrom(RecordsOf(w, id), rows, row); }
        assert false;
      }
    }
    LookupSettles(u, id, rows, p);
  }

  /** Otherwise a submit sends nothing and creates nothing. */
  lemma SubmitHeld(w: World, id: Id, rows: seq<Row>, kind: Kind, body: Body, bodyOk: bool)
    requires Inv(w) && (!bodyOk || !Available(w, id) || (id in w.states && w.states[id].busy))
    ensures Step(w, Submit(id, rows, kind, body, bodyOk)) == Touch(w, id, rows) && Emitted(w, Submit(id, rows, kind, body, bodyOk)) == None
  {
    EntryMadeIff(w, id);
    TouchKeeps(w, id, rows);
    assert Flying(w, id);
  }

  /** A retry puts the pending request on the wire again, unless one is under way or its receipt has come. */
  lemma RetrySends(w: World, id: Id, rows: seq<Row>, p: Pending)
    requires Inv(w) && Waiting(w, id, p)
    ensures Emitted(w, Retry(id, rows)) ==
              if w.states[id].busy || Settles(w, Retry(id, rows), id, p) then None else Some(p.body)
  {
    assert Flying(w, id);
    LookupSettles(w, id, rows, p);
  }

  /** An inspection reads the saved feedback, under the same conditions. */
  lemma InspectReads(w: World, id: Id, rows: seq<Row>, p: Pending)
    requires Inv(w) && Waiting(w, id, p) && !w.states[id].busy && !Settles(w, Inspect(id, rows), id, p)
    ensures var w' := Step(w, Inspect(id, rows));
            id in w'.flights && w'.flights[id] == Inspecting && w'.states[id].busy && Waiting(w', id, p)
  {
    LookupSettles(w, id, rows, p);
  }

  /** The answer to an inspection frees the entry; a current view leaves the receipts it shows, any other nothing. */
  lemma InspectMeans(w: World, id: Id, reading: Reading, p: Pending)
    requires Inv(w) && Waiting(w, id, p) && id in w.flights && w.flights[id].Inspecting?
    ensures var w' := Step(w, InspectAnswered(id, reading));
            && id in w'.states && id !in w'.flights && !w'.states[id].busy
            && w'.states[id].records == (if reading.Current? then Kept(w.states[id].records, reading.rows) else w.states[id].records)
            && (!reading.Current? ==> w'.states[id].pending == w.states[id].pending)
  {
    if reading.Current? { LookupSettles(w, id, reading.rows, p); }
  }

  /** A material moves on an idle binding, and its end frees the entry. */
  lemma MaterialMoves(w: World, id: Id, rows: seq<Row>)
    requires Inv(w) && Idle(w, id)
    ensures var w' := Step(w, MoveMaterial(id, rows, true));
            && id in w'.states && w'.states[id].busy && id in w'.flights && w'.flights[id] == Moving
            && var w'' := Step(w', MaterialMoved(id)); id in w''.states && !w''.states[id].busy && id !in w''.flights
  {
    IdleLookup(w, id, rows);
  }
}
