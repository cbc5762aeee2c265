/** What each upload request answers, and what an accepted one has achieved. */
module UploadAnswers {
  import opened Prelude
  import opened Uploads
  import opened UploadTheorems

  // ---------- chunks ----------

  /** The bytes are stored as one chunk at the offset. */
  ghost predicate Stores(s: Store, id: MaterialId, offset: int, data: Bytes) {
    id in s.cells && s.cells[id].item.manual && offset in s.cells[id].chunks && s.cells[id].chunks[offset] == data
  }

  /** A chunk a request may carry for an upload of a given size. */
  predicate Fits(size: int, offset: int, data: Bytes) { 0 <= offset && 0 < |data| <= 128 * 1024 && offset + |data| <= size }

  ghost predicate SlicedAt(bytes: Bytes, offset: int, data: Bytes) {
    0 <= offset && offset + |data| <= |bytes| && bytes[offset..offset + |data|] == data
  }

  /** Each chunk of a tiling lies at its offset in the joined bytes. */
  lemma {:induction false} JoinAt(m: map<int, Bytes>, lo: int, hi: int, k: int)
    requires Tiled(m, lo, hi) && k in m
    ensures lo <= k && k + |m[k]| <= hi && |Join(m)| == hi - lo && Join(m)[k - lo..k - lo + |m[k]|] == m[k]
    decreases |m|
  {
    TiledRange(m, lo, hi);
    TiledHead(m, lo, hi);
    Shrinks(m, lo);
    TiledRange(m - {lo}, lo + |m[lo]|, hi);
    var head, rest := m[lo], Join(m - {lo});
    if k == lo {
      assert (head + rest)[..|head|] == head;
    } else {
      JoinAt(m - {lo}, lo + |head|, hi, k);
      assert (head + rest)[k - lo..k - lo + |m[k]|] == rest[k - lo - |head|..k - lo - |head| + |m[k]|];
    }
  }

  /** A stored chunk is part of the bytes received. */
  lemma StoredIsReceived(h: Hashes, s: Store, id: MaterialId, offset: int, data: Bytes)
    requires Inv(h, s) && Stores(s, id, offset, data)
    ensures var c := s.cells[id];
            && Fits(c.item.key.size, offset, data) && offset + |data| <= c.item.received
            && SlicedAt(Join(c.chunks), offset, data)
  {
    var c := s.cells[id];
    assert CellInv(h, c);
    JoinAt(c.chunks, 0, c.item.received, offset);
    ChunksFit(c.chunks, 0, c.item.received, offset);
  }

  lemma {:induction false} ChunksFit(m: map<int, Bytes>, lo: int, hi: int, k: int)
    requires Tiled(m, lo, hi) && k in m
    ensures 0 < |m[k]| <= CHUNK_LIMIT
    decreases |m|
  {
    TiledHead(m, lo, hi);
    if k != lo { Shrinks(m, lo); ChunksFit(m - {lo}, lo + |m[lo]|, hi, k); }
  }

  /**
   * A chunk for an upload is accepted if and only if it fits and is either stored already, with these
   * very bytes, or the next one of an upload in progress; other bytes at a stored offset conflict.
   */
  lemma ChunkAcceptedIff(h: Hashes, s: Store, id: MaterialId, offset: int, data: Bytes)
    requires Inv(h, s)
    ensures Chunk(s, id, offset, data).Ok? <==>
              && id in s.cells && s.cells[id].item.manual && Fits(s.cells[id].item.key.size, offset, data)
              && (|| Stores(s, id, offset, data)
                  || (s.cells[id].item.status == Uploading && offset == s.cells[id].item.received))
    ensures Chunk(s, id, offset, data) == Err(ChunkConflict) <==>
              && id in s.cells && s.cells[id].item.manual && Fits(s.cells[id].item.key.size, offset, data)
              && exists other :: Stores(s, id, offset, other) && other != data
  {
    if id in s.cells {
      var c := s.cells[id];
      assert CellInv(h, c);
      if c.item.manual {
        TiledRange(c.chunks, 0, c.item.received);
        if offset in c.chunks { assert Stores(s, id, offset, c.chunks[offset]); }
      }
    }
  }

  /** An accepted chunk is stored, and counted, and nothing else is. */
  lemma AcceptedIsStored(h: Hashes, s: Store, id: MaterialId, offset: int, data: Bytes)
    requires Inv(h, s) && Chunk(s, id, offset, data).Ok?
    ensures var (s', item) := Chunk(s, id, offset, data).value;
            && Stores(s', id, offset, data) && s'.cells[id].item == item
            && offset + |data| <= item.received && SlicedAt(Join(s'.cells[id].chunks), offset, data)
            && (if Stores(s, id, offset, data) then s' == s
                else Join(s'.cells[id].chunks) == Join(s.cells[id].chunks) + data && item.received == offset + |data|)
  {
    var s' := Chunk(s, id, offset, data).value.0;
    StepKeeps(h, s, ChunkA(id, offset, data));
    assert s' == Step(h, s, ChunkA(id, offset, data));
    ChunkAcceptedIff(h, s, id, offset, data);
    var c := s.cells[id];
    assert CellInv(h, c);
    if !Stores(s, id, offset, data) { TiledAppend(c.chunks, 0, c.item.received, data); }
    StoredIsReceived(h, s', id, offset, data);
  }

  /** No request of the run aborts the upload. */
  ghost predicate NoAbort(acts: seq<Action>, id: MaterialId) {
    forall i :: 0 <= i < |acts| ==> !(acts[i].AbortA? && acts[i].id == id)
  }

  lemma StoredStep(h: Hashes, s: Store, a: Action, id: MaterialId, offset: int, data: Bytes)
    requires GoodCell(h, s, id) && Stores(s, id, offset, data) && !(a.AbortA? && a.id == id)
    ensures Stores(Step(h, s, a), id, offset, data) && Step(h, s, a).cells[id].item.key == s.cells[id].item.key
  {
  }

  /**
   * Sending an accepted chunk again, at once or after any requests that do not abort the upload,
   * answers with the stored item and changes nothing; other bytes at its offset conflict.
   */
  lemma {:induction false} ChunkReplays(h: Hashes, s: Store, acts: seq<Action>, id: MaterialId, offset: int, data: Bytes)
    requires Inv(h, s) && Chunk(s, id, offset, data).Ok? && NoAbort(acts, id)
    ensures var v := Run(h, Step(h, s, ChunkA(id, offset, data)), acts);
            && Inv(h, v) && Stores(v, id, offset, data)
            && Chunk(v, id, offset, data) == Ok((v, v.cells[id].item))
            && forall other :: Fits(v.cells[id].item.key.size, offset, other) && other != data ==>
                 Chunk(v, id, offset, other) == Err(ChunkConflict)
  {
    var u := Step(h, s, ChunkA(id, offset, data));
    StepKeeps(h, s, ChunkA(id, offset, data));
    if acts == [] {
      AcceptedIsStored(h, s, id, offset, data);
    } else {
      var n := |acts| - 1;
      assert NoAbort(acts[..n], id);
      ChunkReplays(h, s, acts[..n], id, offset, data);
      var v := Run(h, u, acts[..n]);
      assert GoodCell(h, v, id);
      StoredStep(h, v, acts[n], id, offset, data);
      StepKeeps(h, v, acts[n]);
    }
    StoredIsReceived(h, Run(h, u, acts), id, offset, data);
  }

  // ---------- begin ----------

  ghost predicate Acceptable(k: Key, extensionOk: bool) {
    && 0 < |k.name| <= 240 && (forall i :: 0 <= i < |k.name| ==> k.name[i] !in {'/', '\\', '\r', '\n', '\0'})
    && 1 <= k.stage <= 6 && 0 <= k.size <= 128 * 1024 * 1024
    && (k.purpose == None || (k.purpose == Some("stage3-planning-material") && k.stage == 3 && k.size > 0))
    && |k.pin| == 64 && (forall i :: 0 <= i < 64 ==> '0' <= k.pin[i] <= '9' || 'a' <= k.pin[i] <= 'f') && extensionOk
  }

  /** A begin is served if and only if its key is acceptable. */
  lemma BeginServedIff(h: Hashes, s: Store, k: Key, extensionOk: bool, restart: bool)
    ensures Begin(h, s, k, extensionOk, restart).Ok? <==> Acceptable(k, extensionOk)
  {
    assert (exists i :: 0 <= i < |k.name| && BadNameChar(k.name[i])) <==>
           !(forall i :: 0 <= i < |k.name| ==> k.name[i] !in {'/', '\\', '\r', '\n', '\0'});
  }

  ghost predicate BadName(name: string) {
    name == "" || |name| > 240 || exists i :: 0 <= i < |name| && name[i] in {'/', '\\', '\r', '\n', '\0'}
  }

  /** Why a begin is refused, the causes in the order they are looked at. */
  lemma BeginRefusedBy(h: Hashes, s: Store, k: Key, extensionOk: bool, restart: bool)
    ensures match Begin(h, s, k, extensionOk, restart)
            case Ok(_) => !BadName(k.name)
            case Err(InvalidFileName) => BadName(k.name)
            case Err(InvalidStage) => !BadName(k.name) && !(1 <= k.stage <= 6)
            case Err(FileTooLarge) => 1 <= k.stage <= 6 && !(0 <= k.size <= 128 * 1024 * 1024)
            case Err(InvalidPurpose) => 0 <= k.size <= 128 * 1024 * 1024 && k.purpose.Some? && k.purpose.value != "stage3-planning-material"
            case Err(CapacityExceeded) => k.purpose == Some("stage3-planning-material") && (k.stage != 3 || k.size == 0)
            case Err(HashRequired) => !HexDigest(k.pin)
            case Err(UnsupportedExtension) => HexDigest(k.pin) && !extensionOk
            case Err(_) => false
  {
    assert (exists i :: 0 <= i < |k.name| && BadNameChar(k.name[i])) <==>
           (exists i :: 0 <= i < |k.name| && k.name[i] in {'/', '\\', '\r', '\n', '\0'});
  }

  /** Why a chunk is refused. */
  lemma ChunkRefusedBy(s: Store, id: MaterialId, offset: int, data: Bytes)
    ensures match Chunk(s, id, offset, data)
            case Ok(_) => id in s.cells
            case Err(NotFound) => id !in s.cells
            case Err(NotUploadable) => id in s.cells && !s.cells[id].item.manual
            case Err(InvalidChunk) => id in s.cells && !Fits(s.cells[id].item.key.size, offset, data)
            case Err(ChunkConflict) => id in s.cells && offset in s.cells[id].chunks && s.cells[id].chunks[offset] != data
            case Err(ChunkOutOfOrder) =>
              && id in s.cells && Fits(s.cells[id].item.key.size, offset, data) && offset !in s.cells[id].chunks
              && (s.cells[id].item.status != Uploading || offset != s.cells[id].item.received)
            case Err(_) => false
  {
  }

  /** Why a finish is refused, in a store that keeps the invariant. */
  lemma FinishRefusedBy(h: Hashes, s: Store, id: MaterialId)
    requires Inv(h, s)
    ensures match Finish(h, s, id)
            case Ok(_) => id in s.cells
            case Err(NotFound) => id !in s.cells
            case Err(NotUploadable) => id in s.cells && !s.cells[id].item.manual
            case Err(NotActive) => id in s.cells && s.cells[id].item.status == Aborted
            case Err(Incomplete) => id in s.cells && s.cells[id].item.status == Uploading && s.cells[id].item.received < s.cells[id].item.key.size
            case Err(HashMismatch) =>
              && id in s.cells && s.cells[id].item.received == s.cells[id].item.key.size
              && h.digest(Join(s.cells[id].chunks)) != s.cells[id].item.key.pin
            case Err(_) => false
  {
    if id in s.cells && s.cells[id].item.manual {
      assert CellInv(h, s.cells[id]);
      TiledRange(s.cells[id].chunks, 0, s.cells[id].item.received);
    }
  }

  /** Why an abort is refused. */
  lemma AbortRefusedBy(h: Hashes, s: Store, id: MaterialId, generation: int)
    ensures match Abort(h, s, id, generation)
            case Ok(_) => id in s.cells
            case Err(NotFound) => id !in s.cells
            case Err(NotActive) => id in s.cells && (!s.cells[id].item.manual || s.cells[id].item.status == Registered)
            case Err(GenerationDiffers) => id in s.cells && generation != s.cells[id].item.attempt
            case Err(FinalizationPending) => id in s.cells && s.cells[id].item.status == Uploading && s.cells[id].file.Some?
            case Err(RecordConflict) => id in s.cells && h.event((id, s.cells[id].item.attempt)) in s.operations
            case Err(_) => false
  {
  }

  /**
   * A begin of a new upload starts attempt 1 with nothing received; of an aborted one, and only when
   * asked to restart, the next attempt with nothing received; of any other it changes nothing, so an
   * aborted upload begun without restart stays aborted.
   */
  lemma BeginMeans(h: Hashes, s: Store, k: Key, extensionOk: bool, restart: bool)
    requires Inv(h, s) && Begin(h, s, k, extensionOk, restart).Ok?
    ensures var (s', item) := Begin(h, s, k, extensionOk, restart).value;
            var id := BeginId(h, k);
            && id in s'.cells && s'.cells[id].item == item && s'.operations == s.operations
            && (forall i :: i in s.cells && i != id ==> i in s'.cells && s'.cells[i] == s.cells[i])
            && (id !in s.cells ==> item.key == k && item.manual && item.status == Uploading && item.received == 0 && item.attempt == 1
                                   && s'.cells[id].chunks == map[] && s'.cells[id].file == None)
            && (id in s.cells && s.cells[id].item.status == Aborted && restart ==>
                  && item.status == Uploading && item.received == 0 && item.attempt == s.cells[id].item.attempt + 1
                  && item.key == s.cells[id].item.key && s'.cells[id].chunks == map[] && s'.cells[id].file == None)
            && (id in s.cells && !(s.cells[id].item.status == Aborted && restart) ==> s' == s)
  {
    var id := BeginId(h, k);
    if id in s.cells { assert CellInv(h, s.cells[id]); }
  }

  // ---------- finish ----------

  /**
   * A finish succeeds if and only if the upload is registered, or is in progress with every byte
   * received and the bytes have the pinned digest; a conflict with a published file cannot happen.
   */
  lemma FinishedIff(h: Hashes, s: Store, id: MaterialId)
    requires Inv(h, s)
    ensures Finish(h, s, id) != Err(FileConflict)
    ensures Finish(h, s, id).Ok? <==>
              && id in s.cells && s.cells[id].item.manual
              && (|| s.cells[id].item.status == Registered
                  || (&& s.cells[id].item.status == Uploading && s.cells[id].item.received == s.cells[id].item.key.size
                      && h.digest(Join(s.cells[id].chunks)) == s.cells[id].item.key.pin))
    ensures Finish(h, s, id).Ok? ==>
              var (s', item) := Finish(h, s, id).value;
              && id in s'.cells && s'.cells[id].item == item == s.cells[id].item.(status := Registered)
              && FileBytes(h, s', id) == Ok(Join(s.cells[id].chunks))
  {
    if id in s.cells && s.cells[id].item.manual {
      assert CellInv(h, s.cells[id]);
      TiledRange(s.cells[id].chunks, 0, s.cells[id].item.received);
    }
  }

  /** Bytes are served if and only if the upload is registered, and then they are its joined chunks. */
  lemma ServedIff(h: Hashes, s: Store, id: MaterialId)
    requires Inv(h, s)
    ensures FileBytes(h, s, id).Ok? <==> id in s.cells && s.cells[id].item.manual && s.cells[id].item.status == Registered
    ensures FileBytes(h, s, id).Ok? ==> FileBytes(h, s, id).value == Join(s.cells[id].chunks)
  {
    if id in s.cells && s.cells[id].item.manual {
      assert CellInv(h, s.cells[id]);
      TiledRange(s.cells[id].chunks, 0, s.cells[id].item.received);
    }
  }

  // ---------- abort ----------

  /**
   * An abort succeeds if and only if it carries the current generation of an upload that is aborted, or
   * in progress, unpublished, and free of a collision of event digests.
   */
  lemma AbortedIff(h: Hashes, acts: seq<Action>, id: MaterialId, generation: int)
    ensures var s := Run(h, EMPTY, acts);
            Abort(h, s, id, generation).Ok? <==>
              && id in s.cells && s.cells[id].item.manual && generation == s.cells[id].item.attempt
              && (s.cells[id].item.status == Aborted || (AbortWrites(s, id, generation) && !EventCollides(h, s, id)))
  {
    AbortNeverConflicts(h, acts, id, generation);
  }

  /** A successful abort leaves the upload aborted, with no chunks and nothing received, and its attempt on record. */
  lemma AbortMeans(h: Hashes, s: Store, id: MaterialId, generation: int)
    requires Inv(h, s) && Abort(h, s, id, generation).Ok?
    ensures var (s', item) := Abort(h, s, id, generation).value;
            && id in s'.cells && s'.cells[id].item == item && item.status == Aborted && item.received == 0
            && item.attempt == generation && item.key == s.cells[id].item.key
            && s'.cells[id].chunks == map[] && s'.cells[id].file == None
            && h.event((id, generation)) in s'.operations
            && s'.operations[h.event((id, generation))].upload == id && s'.operations[h.event((id, generation))].attempt == generation
            && (s.cells[id].item.status == Uploading ==> s'.operations[h.event((id, generation))].received == s.cells[id].item.received)
            && (s.cells[id].item.status == Aborted ==> s' == s)
  {
    assert CellInv(h, s.cells[id]);
    if s.cells[id].item.status == Aborted { assert Abandoned(s, id, generation); }
  }
}
