/** Draft saves: an optimistic register that recognises a replay of its latest write. */
module Drafts {
  import opened Prelude
  import Journal

  /** A validated comparison shortlist. */
  type Selection = string

  datatype Draft = Draft(revision: int, stage: int, note: string, selection: Option<Selection>)

  datatype Body = Body(note: string, stage: int, revision: int, selection: Option<Selection>)

  datatype Error = NoteTooLong | InvalidStage | RevisionRequired | SelectionRefused | RevisionConflict

  datatype Saved = Saved(state: Option<Draft>, answer: Draft)

  function Revision(was: Option<Draft>): int { if was.Some? then was.value.revision else 0 }

  function PreviousSelection(was: Option<Draft>): Option<Selection> { if was.Some? then was.value.selection else None }

  /** The draft a body would write over `was`. */
  function Written(was: Option<Draft>, b: Body): Draft {
    Draft(b.revision + 1, b.stage, b.note, if b.selection.Some? then b.selection else PreviousSelection(was))
  }

  /** One save; whether a supplied selection fits its packet is given. */
  function Save(was: Option<Draft>, b: Body, selectionOk: bool): Result<Saved, Error> {
    if Journal.Bytes(b.note) > 8192 then Err(NoteTooLong)
    else if !(1 <= b.stage <= 6) then Err(InvalidStage)
    else if b.revision < 0 then Err(RevisionRequired)
    else if b.selection.Some? && !selectionOk then Err(SelectionRefused)
    else if was.Some? && was.value.revision == b.revision + 1 then
      if was.value.note == b.note && was.value.stage == b.stage && was.value.selection == Written(was, b).selection
      then Ok(Saved(was, was.value)) else Err(RevisionConflict)
    else if Revision(was) != b.revision then Err(RevisionConflict)
    else Ok(Saved(Some(Written(was, b)), Written(was, b)))
  }

  datatype Request = Request(body: Body, selectionOk: bool)

  function After(was: Option<Draft>, r: Request): Option<Draft> {
    match Save(was, r.body, r.selectionOk)
    case Ok(s) => s.state
    case Err(_) => was
  }

  function State(reqs: seq<Request>): Option<Draft> {
    if reqs == [] then None else After(State(reqs[..|reqs| - 1]), reqs[|reqs| - 1])
  }

  /** The requests that changed the draft, in order: refusals and replays are not among them. */
  function Writes(reqs: seq<Request>): seq<Body> {
    if reqs == [] then []
    else
      var before, last := State(reqs[..|reqs| - 1]), reqs[|reqs| - 1];
      Writes(reqs[..|reqs| - 1]) + if After(before, last) != before then [last.body] else []
  }

  /** The last selection supplied among some writes. */
  function LastSelection(writes: seq<Body>): Option<Selection> {
    if writes == [] then None
    else if writes[|writes| - 1].selection.Some? then writes[|writes| - 1].selection
    else LastSelection(writes[..|writes| - 1])
  }

  predicate Readable(b: Body) { 1 <= b.stage <= 6 && Journal.Bytes(b.note) <= 8192 }

  /** A draft is what a list of writes makes it, each built on the revision before it. */
  ghost predicate Linear(s: Option<Draft>, ws: seq<Body>) {
    && Revision(s) == |ws| && (s.None? <==> ws == [])
    && PreviousSelection(s) == LastSelection(ws)
    && (forall i :: 0 <= i < |ws| ==> ws[i].revision == i && Readable(ws[i]))
    && (ws != [] ==> s.value.note == ws[|ws| - 1].note && s.value.stage == ws[|ws| - 1].stage)
  }

  lemma LinearStep(s: Option<Draft>, ws: seq<Body>, r: Request)
    requires Linear(s, ws)
    ensures if After(s, r) == s then true else After(s, r) == Some(Written(s, r.body)) && Linear(After(s, r), ws + [r.body])
  {
    if After(s, r) != s {
      var ws' := ws + [r.body];
      assert ws'[..|ws|] == ws;
      assert r.body.revision == |ws| && Readable(r.body);
    }
  }

  /**
   * Saves are linear: the stored revision is the number of writes, each built on the revision
   * before it, and the stored selection is the last one a write supplied.
   */
  lemma {:induction false} SavesAreLinear(reqs: seq<Request>)
    ensures Linear(State(reqs), Writes(reqs))
  {
    if reqs != [] {
      var n := |reqs| - 1;
      SavesAreLinear(reqs[..n]);
      LinearStep(State(reqs[..n]), Writes(reqs[..n]), reqs[n]);
      assert Writes(reqs[..n]) + [] == Writes(reqs[..n]);
    }
  }

  /** Replaying the latest write, at any later time before another write, returns it and changes nothing. */
  lemma ReplayIsHarmless(reqs: seq<Request>)
    requires Writes(reqs) != []
    ensures var s, ws := State(reqs), Writes(reqs);
            s.Some? && Save(s, ws[|ws| - 1], true) == Ok(Saved(s, s.value))
  {
    SavesAreLinear(reqs);
    var ws := Writes(reqs);
    assert ws[|ws| - 1].revision == |ws| - 1;
  }

  /** The body repeats what the latest write stored. */
  ghost predicate Repeats(s: Option<Draft>, b: Body) {
    && s.Some? && b.revision + 1 == s.value.revision && b.note == s.value.note && b.stage == s.value.stage
    && (b.selection.Some? ==> b.selection == s.value.selection)
  }

  /**
   * No update is lost: of all requests, a reachable draft accepts exactly those with a readable body
   * and, if they supply a selection, a fitting one, that build on its revision or repeat its latest
   * write; one that builds on it becomes the draft, one that repeats it is answered with the draft.
   */
  lemma NoLostUpdate(reqs: seq<Request>, b: Body, selectionOk: bool)
    ensures var s := State(reqs);
            && (Save(s, b, selectionOk).Ok? <==>
                  && Readable(b) && 0 <= b.revision && (b.selection.Some? ==> selectionOk)
                  && (b.revision == |Writes(reqs)| || Repeats(s, b)))
            && (Save(s, b, selectionOk).Ok? && Repeats(s, b) ==> Save(s, b, selectionOk).value == Saved(s, s.value))
            && (Save(s, b, selectionOk).Ok? && !Repeats(s, b) ==>
                  Save(s, b, selectionOk).value == Saved(Some(Written(s, b)), Written(s, b)))
  {
    SavesAreLinear(reqs);
  }

  /** Why a save is refused, the causes in the order they are looked at. */
  lemma SaveRefusedBy(s: Option<Draft>, b: Body, selectionOk: bool)
    ensures match Save(s, b, selectionOk)
            case Err(NoteTooLong) => Journal.Bytes(b.note) > 8192
            case Err(InvalidStage) => Journal.Bytes(b.note) <= 8192 && (b.stage < 1 || b.stage > 6)
            case Err(RevisionRequired) => Readable(b) && b.revision < 0
            case Err(SelectionRefused) => Readable(b) && 0 <= b.revision && b.selection.Some? && !selectionOk
            case Err(RevisionConflict) => Revision(s) != b.revision && !Repeats(s, b)
            case Ok(_) => true
  {
  }

  /** One draft row, updated in place. */
  class DraftRow {
    var row: Option<Draft>

    constructor ()
      ensures row == None
    {
      row := None;
    }

    method Put(b: Body, selectionOk: bool) returns (r: Result<Draft, Error>)
      modifies this
      ensures row == After(old(row), Request(b, selectionOk))
      ensures match Save(old(row), b, selectionOk) case Ok(s) => r == Ok(s.answer) case Err(e) => r == Err(e)
    {
      if Journal.Bytes(b.note) > 8192 { return Err(NoteTooLong); }
      if b.stage < 1 || b.stage > 6 { return Err(InvalidStage); }
      if b.revision < 0 { return Err(RevisionRequired); }
      if b.selection.Some? && !selectionOk { return Err(SelectionRefused); }
      var selection := b.selection;
      if selection.None? && row.Some? { selection := row.value.selection; }
      if row.Some? && row.value.revision == b.revision + 1 {
        if row.value.note == b.note && row.value.stage == b.stage && row.value.selection == selection {
          return Ok(row.value);
        }
        return Err(RevisionConflict);
      }
      if (if row.Some? then row.value.revision else 0) != b.revision { return Err(RevisionConflict); }
      row := Some(Draft(b.revision + 1, b.stage, b.note, selection));
      r := Ok(row.value);
    }
  }
}
