/** What holds of uploads over every run of requests, interruptions, aborts, restarts and crashes. */
module UploadTheorems {
  import opened Prelude
  import opened Uploads

  const EMPTY := Store(map[], map[])

  lemma Reachable(h: Hashes, acts: seq<Action>)
    ensures Inv(h, Run(h, EMPTY, acts))
  {
    RunKeeps(h, EMPTY, acts);
  }

  /**
   * A published file exists only while the upload is fully received or registered, and carries the
   * pinned digest; an aborted upload has no file, no chunks and nothing received; a registered one
   * serves exactly its joined chunks.
   */
  lemma PublicationSafety(h: Hashes, acts: seq<Action>, id: MaterialId)
    requires id in Run(h, EMPTY, acts).cells && id.FileId?
    ensures var s := Run(h, EMPTY, acts);
            var c := s.cells[id];
            && 0 <= c.item.received <= c.item.key.size <= FILE_LIMIT && HexDigest(c.item.key.pin) && 1 <= c.item.key.stage <= 6
            && (c.file.Some? ==> c.item.received == c.item.key.size && c.item.status != Aborted
                                 && h.digest(c.file.value) == c.item.key.pin)
            && (c.item.status == Aborted ==> c.file == None && c.chunks == map[] && c.item.received == 0)
            && (c.item.status == Registered ==> FileBytes(h, s, id) == Ok(Join(c.chunks)))
  {
    Reachable(h, acts);
    var c := Run(h, EMPTY, acts).cells[id];
    assert CellInv(h, c);
    TiledRange(c.chunks, 0, c.item.received);
  }

  // ---------- registration is final ----------

  lemma RegisteredStep(h: Hashes, s: Store, a: Action, id: MaterialId)
    requires GoodCell(h, s, id) && id in s.cells && s.cells[id].item.status == Registered
    ensures id in Step(h, s, a).cells && Step(h, s, a).cells[id] == s.cells[id]
  {
  }

  /** Once registered, an upload's record, chunks and published bytes never change. */
  lemma {:induction false} RegisteredIsFinal(h: Hashes, s: Store, acts: seq<Action>, id: MaterialId)
    requires Inv(h, s) && id in s.cells && s.cells[id].item.status == Registered
    ensures id in Run(h, s, acts).cells && Run(h, s, acts).cells[id] == s.cells[id]
  {
    if acts != [] {
      RegisteredIsFinal(h, s, acts[..|acts| - 1], id);
      RunKeeps(h, s, acts[..|acts| - 1]);
      RegisteredStep(h, Run(h, s, acts[..|acts| - 1]), acts[|acts| - 1], id);
    }
  }

  // ---------- the crash window ----------

  lemma PublishedStep(h: Hashes, s: Store, a: Action, id: MaterialId)
    requires GoodCell(h, s, id) && id in s.cells && id.FileId? && s.cells[id].file.Some?
    ensures var s' := Step(h, s, a);
            id in s'.cells && s'.cells[id].file == s.cells[id].file && s'.cells[id].item.key == s.cells[id].item.key
  {
    assert CellInv(h, s.cells[id]);
    TiledRange(s.cells[id].chunks, 0, s.cells[id].item.received);
  }

  /**
   * After a crash between linking the file and recording completion, whatever else happens first,
   * a retried finish succeeds and the file it registers is the one that was linked.
   */
  lemma {:induction false} RetryAfterCrashSucceeds(h: Hashes, s: Store, acts: seq<Action>, id: MaterialId)
    requires Inv(h, s) && Link(h, s, id).Ok?
    ensures var linked := Step(h, s, LinkA(id));
            var s' := Run(h, linked, acts);
            && id in linked.cells && id in s'.cells && linked.cells[id].file.Some?
            && s'.cells[id].file == linked.cells[id].file
            && Finish(h, s', id).Ok?
            && FileBytes(h, Finish(h, s', id).value.0, id) == Ok(linked.cells[id].file.value)
  {
    var linked := Step(h, s, LinkA(id));
    StepKeeps(h, s, LinkA(id));
    if acts == [] {
      FinishPublished(h, linked, id);
    } else {
      var n := |acts| - 1;
      RetryAfterCrashSucceeds(h, s, acts[..n], id);
      RunKeeps(h, linked, acts[..n]);
      StepKeeps(h, Run(h, linked, acts[..n]), acts[n]);
      PublishedStep(h, Run(h, linked, acts[..n]), acts[n], id);
      FinishPublished(h, Run(h, linked, acts), id);
    }
  }

  lemma FinishPublished(h: Hashes, s: Store, id: MaterialId)
    requires Inv(h, s) && id in s.cells && id.FileId? && s.cells[id].file.Some?
    ensures Finish(h, s, id).Ok? && FileBytes(h, Finish(h, s, id).value.0, id) == Ok(s.cells[id].file.value)
  {
    assert CellInv(h, s.cells[id]);
    TiledRange(s.cells[id].chunks, 0, s.cells[id].item.received);
  }

  // ---------- chunks are the data ----------

  /** A chunk sent for `id` is the slice of `data` at its offset. */
  ghost predicate Truthful(a: Action, id: MaterialId, data: Bytes) {
    a.ChunkA? && a.id == id && 0 <= a.offset && a.offset + |a.data| <= |data| ==>
      a.data == data[a.offset..a.offset + |a.data|]
  }

  /** What is stored for `id` is a prefix of `data`, as far as received. */
  ghost predicate StoresPrefix(s: Store, id: MaterialId, data: Bytes) {
    id in s.cells && s.cells[id].item.manual && s.cells[id].item.key.size == |data| ==>
      && 0 <= s.cells[id].item.received <= |data|
      && Join(s.cells[id].chunks) == data[..s.cells[id].item.received]
  }

  lemma TruthfulChunk(h: Hashes, s: Store, a: Action, id: MaterialId, data: Bytes)
    requires Inv(h, s) && StoresPrefix(s, id, data) && Truthful(a, id, data) && a.ChunkA? && a.id == id && id in s.cells
    ensures StoresPrefix(Step(h, s, a), id, data)
  {
    var c := s.cells[id];
    assert CellInv(h, c);
    if Chunk(s, id, a.offset, a.data).Ok? && a.offset !in c.chunks {
      TiledAppend(c.chunks, 0, c.item.received, a.data);
      if c.item.key.size == |data| {
        assert data[..c.item.received] + data[c.item.received..c.item.received + |a.data|] == data[..c.item.received + |a.data|];
      }
    }
  }

  /** Any other request leaves the chunks and the count as they are, or clears both. */
  lemma OtherStepKeepsChunks(h: Hashes, s: Store, a: Action, id: MaterialId)
    requires id in s.cells && CellInv(h, s.cells[id]) && (s.cells[id].item.manual <==> id.FileId?)
    requires !(a.ChunkA? && a.id == id)
    ensures var c := s.cells[id];
            && id in Step(h, s, a).cells
            && var c' := Step(h, s, a).cells[id];
               && c'.item.key == c.item.key && c'.item.manual == c.item.manual
               && ((c'.chunks == c.chunks && c'.item.received == c.item.received) || (c'.chunks == map[] && c'.item.received == 0))
  {
  }

  lemma TruthfulStep(h: Hashes, s: Store, a: Action, id: MaterialId, data: Bytes)
    requires Inv(h, s) && StoresPrefix(s, id, data) && Truthful(a, id, data)
    ensures StoresPrefix(Step(h, s, a), id, data)
  {
    if id in s.cells {
      if a.ChunkA? && a.id == id { TruthfulChunk(h, s, a, id, data); } else { OtherStepKeepsChunks(h, s, a, id); }
    }
  }

  /**
   * If every chunk sent is the true slice of the data at its offset then, under any order,
   * duplication, interruption, abort and restart, the stored chunks tile exactly the received
   * prefix of the data.
   */
  lemma {:induction false} ChunksTileThePrefix(h: Hashes, acts: seq<Action>, id: MaterialId, data: Bytes)
    requires forall i :: 0 <= i < |acts| ==> Truthful(acts[i], id, data)
    ensures var s := Run(h, EMPTY, acts);
            && StoresPrefix(s, id, data)
            && (id in s.cells && id.FileId? ==> Tiled(s.cells[id].chunks, 0, s.cells[id].item.received))
  {
    Reachable(h, acts);
    if acts != [] {
      var n := |acts| - 1;
      ChunksTileThePrefix(h, acts[..n], id, data);
      Reachable(h, acts[..n]);
      TruthfulStep(h, Run(h, EMPTY, acts[..n]), acts[n], id, data);
    }
    if id in Run(h, EMPTY, acts).cells { assert CellInv(h, Run(h, EMPTY, acts).cells[id]); }
  }

  // ---------- generations ----------

  /** Some other abandoned attempt has the event digest of the current attempt of `id`. */
  ghost predicate EventCollides(h: Hashes, s: Store, id: MaterialId)
    requires id in s.cells
  {
    exists i, n :: Abandoned(s, i, n) && (i, n) != (id, s.cells[id].item.attempt)
                   && h.event((i, n)) == h.event((id, s.cells[id].item.attempt))
  }

  /** An abort gets as far as writing its record. */
  predicate AbortWrites(s: Store, id: MaterialId, generation: int) {
    && id in s.cells && s.cells[id].item.manual && s.cells[id].item.status == Uploading
    && generation == s.cells[id].item.attempt && s.cells[id].file.None?
  }

  /**
   * There is exactly one abort record per abandoned attempt, so an abort conflicts exactly when it gets
   * as far as its record and the event digest collides on two attempts at hand.
   */
  lemma AbortNeverConflicts(h: Hashes, acts: seq<Action>, id: MaterialId, generation: int)
    ensures var s := Run(h, EMPTY, acts);
            && RecordsInv(h, s)
            && (Abort(h, s, id, generation) == Err(RecordConflict) <==> AbortWrites(s, id, generation) && EventCollides(h, s, id))
  {
    Reachable(h, acts);
    var s := Run(h, EMPTY, acts);
    if Abort(h, s, id, generation) == Err(RecordConflict) {
      var n := s.cells[id].item.attempt;
      var r := s.operations[h.event((id, n))];
      assert Abandoned(s, r.upload, r.attempt) && !Abandoned(s, id, n);
    }
  }

  lemma AttemptStep(h: Hashes, s: Store, a: Action, id: MaterialId)
    requires id in s.cells
    ensures id in Step(h, s, a).cells && s.cells[id].item.attempt <= Step(h, s, a).cells[id].item.attempt
  {
  }

  lemma {:induction false} AttemptsGrow(h: Hashes, s: Store, acts: seq<Action>, id: MaterialId)
    requires id in s.cells
    ensures id in Run(h, s, acts).cells && s.cells[id].item.attempt <= Run(h, s, acts).cells[id].item.attempt
  {
    if acts != [] {
      AttemptsGrow(h, s, acts[..|acts| - 1], id);
      AttemptStep(h, Run(h, s, acts[..|acts| - 1]), acts[|acts| - 1], id);
    }
  }

  /**
   * An abort that carries the generation a client saw can only discard that generation: if the
   * upload was restarted meanwhile, now or ever after, the abort changes nothing.
   */
  lemma StaleAbortDiscardsNothing(h: Hashes, s: Store, acts: seq<Action>, more: seq<Action>, id: MaterialId, seen: int)
    requires id in s.cells && seen == s.cells[id].item.attempt
    requires id in Run(h, s, acts).cells && seen < Run(h, s, acts).cells[id].item.attempt
    ensures var late := Run(h, Run(h, s, acts), more); Step(h, late, AbortA(id, seen)) == late
  {
    AttemptsGrow(h, Run(h, s, acts), more, id);
  }
}
