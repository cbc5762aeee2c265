/** The upload registry as an object, and the browser loop that drives it. */
module UploadService {
  import opened Prelude
  import opened Uploads
  import opened UploadTheorems

  class Materials {
    const h: Hashes
    var cells: map<MaterialId, Cell>
    var operations: map<Digest, AbortRecord>

    ghost function View(): Store
      reads this
    {
      Store(cells, operations)
    }

    ghost predicate Valid()
      reads this
    {
      Inv(h, View())
    }

    constructor (h: Hashes)
      ensures Valid() && View() == EMPTY && this.h == h
    {
      this.h := h;
      cells, operations := map[], map[];
    }

    method BeginUpload(k: Key, extensionOk: bool, restart: bool) returns (r: Result<Item, Error>)
      requires Valid()
      modifies this
      ensures Valid() && View() == Step(h, old(View()), BeginA(k, extensionOk, restart))
      ensures match Begin(h, old(View()), k, extensionOk, restart)
              case Ok(v) => r == Ok(v.1)
              case Err(e) => r == Err(e)
    {
      StepKeeps(h, View(), BeginA(k, extensionOk, restart));
      var refused := CheckKey(k, extensionOk);
      if refused.Some? { return Err(refused.value); }
      var id := BeginId(h, k);
      if id in cells {
        var item := cells[id].item;
        if item.status == Aborted && restart {
          item := item.(status := Uploading, received := 0, attempt := item.attempt + 1);
          cells := cells[id := cells[id].(item := item)];
        }
        return Ok(item);
      }
      var item := Item(k, true, Uploading, 0, 1);
      cells := cells[id := Cell(item, map[], None)];
      r := Ok(item);
    }

    method UploadChunk(id: MaterialId, offset: int, data: Bytes) returns (r: Result<Item, Error>)
      requires Valid()
      modifies this
      ensures Valid() && View() == Step(h, old(View()), ChunkA(id, offset, data))
      ensures match Chunk(old(View()), id, offset, data)
              case Ok(v) => r == Ok(v.1)
              case Err(e) => r == Err(e)
    {
      StepKeeps(h, View(), ChunkA(id, offset, data));
      if id !in cells { return Err(NotFound); }
      var c := cells[id];
      if !c.item.manual { return Err(NotUploadable); }
      if offset < 0 || data == [] || |data| > CHUNK_LIMIT || offset + |data| > c.item.key.size { return Err(InvalidChunk); }
      if offset in c.chunks {
        return if c.chunks[offset] == data then Ok(c.item) else Err(ChunkConflict);
      }
      if c.item.status != Uploading || offset != c.item.received { return Err(ChunkOutOfOrder); }
      var item := c.item.(received := c.item.received + |data|);
      cells := cells[id := c.(item := item, chunks := c.chunks[offset := data])];
      r := Ok(item);
    }

    /** The rows of one upload joined in order of their offsets. */
    method JoinChunks(chunks: map<int, Bytes>) returns (data: Bytes)
      ensures data == Join(chunks)
    {
      var rest := chunks;
      data := [];
      while rest != map[]
        invariant data + Join(rest) == Join(chunks)
        decreases |rest|
      {
        assert Least(rest.Keys) in rest;
        var k :| k in rest && forall j :: j in rest ==> k <= j;
        assert k == Least(rest.Keys);
        Shrinks(rest, k);
        assert data + (rest[k] + Join(rest - {k})) == (data + rest[k]) + Join(rest - {k});
        data, rest := data + rest[k], rest - {k};
      }
    }

    method FileContents(id: MaterialId) returns (r: Result<Bytes, Error>)
      ensures r == FileBytes(h, View(), id)
    {
      if id !in cells { return Err(NotFound); }
      var c := cells[id];
      if !c.item.manual || c.item.status != Registered { return Err(NotComplete); }
      if c.file.None? { return Err(FileDiffers); }
      var data := c.file.value;
      if |data| != c.item.key.size || h.digest(data) != c.item.key.pin { return Err(FileDiffers); }
      r := Ok(data);
    }

    /** Links the file, then records completion; `crash` cuts the call off between the two. */
    method FinishUpload(id: MaterialId, crash: bool) returns (r: Result<Item, Error>)
      requires Valid()
      modifies this
      ensures Valid()
      ensures !crash ==> View() == Step(h, old(View()), FinishA(id))
      ensures !crash ==> match Finish(h, old(View()), id) case Ok(v) => r == Ok(v.1) case Err(e) => r == Err(e)
      ensures crash ==> View() == Step(h, old(View()), LinkA(id))
    {
      StepKeeps(h, View(), FinishA(id));
      StepKeeps(h, View(), LinkA(id));
      if id !in cells { return Err(NotFound); }
      var c := cells[id];
      if !c.item.manual { return Err(NotUploadable); }
      if c.item.status == Registered {
        var data := FileContents(id);
        return if data.Ok? then Ok(c.item) else Err(data.error);
      }
      if c.item.status != Uploading { return Err(NotActive); }
      if c.item.received != c.item.key.size { return Err(Incomplete); }
      var data := JoinChunks(c.chunks);
      if |data| != c.item.key.size || h.digest(data) != c.item.key.pin { return Err(HashMismatch); }
      if c.file.Some? && c.file.value != data { return Err(FileConflict); }
      cells := cells[id := c.(file := Some(data))];
      if !crash {
        ghost var linked := cells;
        var item := c.item.(status := Registered);
        cells := cells[id := cells[id].(item := item)];
        assert linked[id := linked[id].(item := item)] == cells;
        return Ok(item);
      }
      r := Ok(c.item);
    }

    method AbortUpload(id: MaterialId, generation: int) returns (r: Result<Item, Error>)
      requires Valid()
      modifies this
      ensures Valid() && View() == Step(h, old(View()), AbortA(id, generation))
      ensures match Abort(h, old(View()), id, generation)
              case Ok(v) => r == Ok(v.1)
              case Err(e) => r == Err(e)
    {
      StepKeeps(h, View(), AbortA(id, generation));
      if id !in cells { return Err(NotFound); }
      var c := cells[id];
      if !c.item.manual || c.item.status == Registered { return Err(NotActive); }
      if generation != c.item.attempt { return Err(GenerationDiffers); }
      if c.item.status == Aborted { return Ok(c.item); }
      if c.file.Some? { return Err(FinalizationPending); }
      var event := h.event((id, c.item.attempt));
      if event in operations { return Err(RecordConflict); }
      operations := operations[event := AbortRecord(id, c.item.attempt, c.item.received)];
      var item := c.item.(status := Aborted, received := 0);
      cells := cells[id := Cell(item, map[], None)];
      r := Ok(item);
    }

    /** Registers a saved delivery or packet under an identifier of its own. */
    method RegisterOther(id: MaterialId, k: Key)
      requires Valid()
      modifies this
      ensures Valid() && View() == Step(h, old(View()), OtherA(id, k))
    {
      StepKeeps(h, View(), OtherA(id, k));
      if id.FileId? || id in cells { return; }
      cells := cells[id := Cell(Item(k, false, Registered, 0, 0), map[], None)];
    }
  }

  /** One request of anybody, or a `finish_upload` cut off by a crash. */
  method Serve(server: Materials, a: Action)
    requires server.Valid()
    modifies server
    ensures server.Valid() && server.View() == Step(server.h, old(server.View()), a)
  {
    match a
    case BeginA(k, ext, restart) => var _ := server.BeginUpload(k, ext, restart);
    case ChunkA(id, offset, data) => var _ := server.UploadChunk(id, offset, data);
    case LinkA(id) => var _ := server.FinishUpload(id, true);
    case FinishA(id) => var _ := server.FinishUpload(id, false);
    case AbortA(id, generation) => var _ := server.AbortUpload(id, generation);
    case OtherA(id, k) => server.RegisterOther(id, k);
  }

  method ServeAll(server: Materials, acts: seq<Action>)
    requires server.Valid()
    modifies server
    ensures server.Valid() && server.View() == Run(server.h, old(server.View()), acts)
  {
    for i := 0 to |acts|
      invariant server.Valid() && server.View() == Run(server.h, old(server.View()), acts[..i])
    {
      Serve(server, acts[i]);
      assert acts[..i + 1][..i] == acts[..i];
    }
    assert acts[..|acts|] == acts;
  }

  // ---------- the browser's upload loop ----------

  datatype ClientError = Capacity | Differs | Inactive | Interrupted | Server(error: Error)

  /** The browser's check that a returned entry is the upload it asked for. */
  predicate EntryMatches(item: Item, k: Key) {
    item.key.pin == k.pin && item.key.size == k.size && item.key.project == k.project && item.key.stage == k.stage
  }

  function ClientKey(h: Hashes, project: string, name: string, bytes: Bytes): Key {
    Key(project, 3, name, |bytes|, h.digest(bytes), Some("stage3-planning-material"))
  }

  /** A slice of the file ends where the next chunk starts. */
  function ChunkAt(bytes: Bytes, offset: int): Bytes
    requires 0 <= offset <= |bytes|
  {
    bytes[offset..if offset + CHUNK_LIMIT <= |bytes| then offset + CHUNK_LIMIT else |bytes|]
  }

  /** The server's record of this upload is missing, aborted, or holds a true prefix of the file. */
  ghost predicate Resumable(s: Store, id: MaterialId, k: Key, bytes: Bytes) {
    id in s.cells ==> s.cells[id].item.manual && EntryMatches(s.cells[id].item, k) && StoresPrefix(s, id, bytes)
  }

  /** Where the loop stands: everything before `offset` is stored. */
  ghost predicate Sending(s: Store, id: MaterialId, k: Key, bytes: Bytes, offset: int) {
    && id in s.cells && s.cells[id].item.manual && EntryMatches(s.cells[id].item, k)
    && s.cells[id].item.status == Uploading && 0 <= offset
    && s.cells[id].item.received == (if offset <= |bytes| then offset else |bytes|)
  }

  // ---------- other clients ----------

  /** A request that sends only true chunks for `id` and begins it only under its own key. */
  ghost predicate Honest(h: Hashes, a: Action, id: MaterialId, k: Key, bytes: Bytes) {
    Truthful(a, id, bytes) && (a.BeginA? && BeginId(h, a.key) == id ==> a.key == k)
  }

  /** A request that does not address upload `id`, except perhaps to begin it. */
  ghost predicate Aside(h: Hashes, a: Action, id: MaterialId, k: Key) {
    if a.BeginA? then BeginId(h, a.key) == id ==> a.key == k else a.id != id
  }

  ghost predicate AllHonest(h: Hashes, acts: seq<Action>, id: MaterialId, k: Key, bytes: Bytes) {
    forall i :: 0 <= i < |acts| ==> Honest(h, acts[i], id, k, bytes)
  }

  ghost predicate AllAside(h: Hashes, acts: seq<Action>, id: MaterialId, k: Key) {
    forall i :: 0 <= i < |acts| ==> Aside(h, acts[i], id, k)
  }

  lemma HonestStep(h: Hashes, s: Store, a: Action, id: MaterialId, k: Key, bytes: Bytes)
    requires Inv(h, s) && id.FileId? && Resumable(s, id, k, bytes) && Honest(h, a, id, k, bytes) && k.size == |bytes|
    ensures Resumable(Step(h, s, a), id, k, bytes)
  {
    TruthfulStep(h, s, a, id, bytes);
    if id in s.cells {
      KeyStays(h, s, a, id);
      assert StoresPrefix(s, id, bytes);
    }
  }

  lemma KeyStays(h: Hashes, s: Store, a: Action, id: MaterialId)
    requires id in s.cells
    ensures id in Step(h, s, a).cells
    ensures Step(h, s, a).cells[id].item.key == s.cells[id].item.key && Step(h, s, a).cells[id].item.manual == s.cells[id].item.manual
  {
  }

  lemma {:induction false} HonestRun(h: Hashes, s: Store, acts: seq<Action>, id: MaterialId, k: Key, bytes: Bytes)
    requires Inv(h, s) && id.FileId? && Resumable(s, id, k, bytes) && AllHonest(h, acts, id, k, bytes) && k.size == |bytes|
    ensures Resumable(Run(h, s, acts), id, k, bytes)
  {
    if acts != [] {
      var n := |acts| - 1;
      HonestRun(h, s, acts[..n], id, k, bytes);
      RunKeeps(h, s, acts[..n]);
      HonestStep(h, Run(h, s, acts[..n]), acts[n], id, k, bytes);
    }
  }

  lemma AsideStep(h: Hashes, s: Store, a: Action, id: MaterialId, k: Key)
    requires id in s.cells && s.cells[id].item.status != Aborted && Aside(h, a, id, k)
    ensures id in Step(h, s, a).cells && Step(h, s, a).cells[id] == s.cells[id]
  {
  }

  lemma {:induction false} AsideRun(h: Hashes, s: Store, acts: seq<Action>, id: MaterialId, k: Key)
    requires id in s.cells && s.cells[id].item.status != Aborted && AllAside(h, acts, id, k)
    ensures id in Run(h, s, acts).cells && Run(h, s, acts).cells[id] == s.cells[id]
  {
    if acts != [] {
      AsideRun(h, s, acts[..|acts| - 1], id, k);
      AsideStep(h, Run(h, s, acts[..|acts| - 1]), acts[|acts| - 1], id, k);
    }
  }

  /** What goes on between the client's requests: what others ask before each of them. */
  type Gaps = nat -> seq<Action>

  ghost predicate HonestGaps(h: Hashes, others: Gaps, id: MaterialId, k: Key, bytes: Bytes) {
    forall n :: AllHonest(h, others(n), id, k, bytes)
  }

  ghost predicate AsideGaps(h: Hashes, others: Gaps, id: MaterialId, k: Key) { forall n :: AllAside(h, others(n), id, k) }

  // ---------- the client's requests ----------

  lemma ChunkAccepted(h: Hashes, s: Store, id: MaterialId, k: Key, bytes: Bytes, offset: int)
    requires Inv(h, s) && Sending(s, id, k, bytes, offset) && offset < |bytes| && k.size == |bytes|
    ensures Chunk(s, id, offset, ChunkAt(bytes, offset)).Ok?
    ensures Sending(Step(h, s, ChunkA(id, offset, ChunkAt(bytes, offset))), id, k, bytes, offset + CHUNK_LIMIT)
  {
    assert CellInv(h, s.cells[id]);
    TiledRange(s.cells[id].chunks, 0, s.cells[id].item.received);
  }

  /** What others ask for before a request of the client, seen from its upload. */
  method Gap(server: Materials, acts: seq<Action>, id: MaterialId, k: Key, bytes: Bytes)
    requires server.Valid() && id.FileId? && k.size == |bytes|
    modifies server
    ensures server.Valid()
    ensures AllHonest(server.h, acts, id, k, bytes) && Resumable(old(server.View()), id, k, bytes) ==>
              Resumable(server.View(), id, k, bytes)
    ensures AllAside(server.h, acts, id, k) && id in old(server.cells) && old(server.cells)[id].item.status != Aborted ==>
              id in server.cells && server.cells[id] == old(server.cells)[id]
  {
    ghost var s := server.View();
    if AllHonest(server.h, acts, id, k, bytes) && Resumable(s, id, k, bytes) { HonestRun(server.h, s, acts, id, k, bytes); }
    if AllAside(server.h, acts, id, k) && id in s.cells && s.cells[id].item.status != Aborted { AsideRun(server.h, s, acts, id, k); }
    ServeAll(server, acts);
  }

  /** One chunk of the client's file. */
  method SendChunk(server: Materials, id: MaterialId, k: Key, bytes: Bytes, offset: int) returns (failed: Option<ClientError>)
    requires server.Valid() && id.FileId? && k.size == |bytes| && 0 <= offset < |bytes|
    modifies server
    ensures server.Valid()
    ensures Resumable(old(server.View()), id, k, bytes) ==> Resumable(server.View(), id, k, bytes)
    ensures Sending(old(server.View()), id, k, bytes, offset) ==>
              failed == None && Sending(server.View(), id, k, bytes, offset + CHUNK_LIMIT)
  {
    ghost var s, a := server.View(), ChunkA(id, offset, ChunkAt(bytes, offset));
    if Resumable(s, id, k, bytes) { HonestStep(server.h, s, a, id, k, bytes); }
    if Sending(s, id, k, bytes, offset) { ChunkAccepted(server.h, s, id, k, bytes, offset); KeyStays(server.h, s, a, id); }
    var stored := server.UploadChunk(id, offset, ChunkAt(bytes, offset));
    if stored.Err? { return Some(Server(stored.error)); }
    failed := if EntryMatches(stored.value, k) then None else Some(Differs);
  }

  /** Sends the rest of the file; `patience` is how many chunks go out before the display changes, if it does. */
  method SendChunks(server: Materials, id: MaterialId, k: Key, bytes: Bytes, start: int, patience: Option<nat>, others: Gaps)
    returns (failed: Option<ClientError>, turn: nat)
    requires server.Valid() && id.FileId? && k.size == |bytes| && 0 <= start
    modifies server
    ensures server.Valid()
    ensures HonestGaps(server.h, others, id, k, bytes) && Resumable(old(server.View()), id, k, bytes) ==>
              Resumable(server.View(), id, k, bytes)
    ensures AsideGaps(server.h, others, id, k) && Sending(old(server.View()), id, k, bytes, start) ==>
              && (failed == None || (failed == Some(Interrupted) && patience.Some?))
              && exists offset :: Sending(server.View(), id, k, bytes, offset) && (failed == None ==> |bytes| <= offset)
  {
    ghost var honest := HonestGaps(server.h, others, id, k, bytes) && Resumable(server.View(), id, k, bytes);
    ghost var aside := AsideGaps(server.h, others, id, k) && Sending(server.View(), id, k, bytes, start);
    var offset, sent := start, 0;
    turn := 1;
    while offset < |bytes|
      invariant server.Valid() && 0 <= sent && 0 <= offset
      invariant honest ==> Resumable(server.View(), id, k, bytes)
      invariant aside ==> Sending(server.View(), id, k, bytes, offset)
      decreases |bytes| - offset
    {
      if patience.Some? && sent >= patience.value { return Some(Interrupted), turn; }
      Gap(server, others(turn), id, k, bytes);
      failed := SendChunk(server, id, k, bytes, offset);
      if failed.Some? { return failed, turn; }
      offset, sent, turn := offset + CHUNK_LIMIT, sent + 1, turn + 1;
    }
    failed := if patience.Some? && sent >= patience.value then Some(Interrupted) else None;
  }

  lemma FinishAccepted(h: Hashes, s: Store, id: MaterialId, k: Key, bytes: Bytes)
    requires Inv(h, s) && Sending(s, id, k, bytes, |bytes|) && k.size == |bytes| && k.pin == h.digest(bytes)
    ensures StoresPrefix(s, id, bytes) ==> Finish(h, s, id).Ok?
  {
    var c := s.cells[id];
    assert CellInv(h, c);
    TiledRange(c.chunks, 0, c.item.received);
    assert bytes[..|bytes|] == bytes;
  }

  /** The upload is registered and serves bytes with the file's digest. */
  ghost predicate Served(h: Hashes, s: Store, id: MaterialId, bytes: Bytes) {
    FileBytes(h, s, id).Ok? && h.digest(FileBytes(h, s, id).value) == h.digest(bytes)
  }

  lemma RegisteredServes(h: Hashes, s: Store, id: MaterialId, k: Key, bytes: Bytes)
    requires Inv(h, s) && id in s.cells && id.FileId? && EntryMatches(s.cells[id].item, k)
    requires s.cells[id].item.status == Registered && k.size == |bytes| && k.pin == h.digest(bytes)
    ensures Served(h, s, id, bytes)
    ensures StoresPrefix(s, id, bytes) ==> FileBytes(h, s, id) == Ok(bytes)
  {
    assert CellInv(h, s.cells[id]);
    TiledRange(s.cells[id].chunks, 0, s.cells[id].item.received);
    assert bytes[..|bytes|] == bytes;
  }

  /** A successful finish leaves its answer, registered, in the store. */
  lemma FinishedItem(h: Hashes, s: Store, id: MaterialId)
    requires Finish(h, s, id).Ok?
    ensures var (s', item) := Finish(h, s, id).value; id in s'.cells && s'.cells[id].item == item && item.status == Registered
  {
  }

  /** Asks the server to register the upload once everything is sent. */
  method FinishFile(server: Materials, id: MaterialId, k: Key, bytes: Bytes) returns (r: Result<Item, ClientError>)
    requires server.Valid() && id.FileId? && k.size == |bytes| && k.pin == server.h.digest(bytes)
    modifies server
    ensures server.Valid()
    ensures Resumable(old(server.View()), id, k, bytes) ==> Resumable(server.View(), id, k, bytes)
    ensures Resumable(old(server.View()), id, k, bytes) && Sending(old(server.View()), id, k, bytes, |bytes|) ==> r.Ok?
    ensures r.Ok? ==> id in server.cells && EntryMatches(server.cells[id].item, k) && server.cells[id].item.status == Registered
  {
    ghost var s := server.View();
    if Resumable(s, id, k, bytes) { HonestStep(server.h, s, FinishA(id), id, k, bytes); }
    if Sending(s, id, k, bytes, |bytes|) { FinishAccepted(server.h, s, id, k, bytes); KeyStays(server.h, s, FinishA(id), id); }
    if Finish(server.h, s, id).Ok? { FinishedItem(server.h, s, id); }
    var finished := server.FinishUpload(id, false);
    if finished.Err? { return Err(Server(finished.error)); }
    r := if EntryMatches(finished.value, k) then Ok(finished.value) else Err(Differs);
  }

  /**
   * Starts or resumes the upload of a file and sends it chunk by chunk from where the server
   * stands, while others ask what they like before each request. As long as they send only true
   * chunks for this upload, it stays resumable, and success means the server serves exactly the file;
   * as long as they leave this upload alone, an uninterrupted call succeeds.
   */
  method UploadFile(server: Materials, project: string, name: string, extensionOk: bool, bytes: Bytes, patience: Option<nat>, others: Gaps)
    returns (r: Result<Item, ClientError>)
    requires server.Valid()
    modifies server
    ensures server.Valid()
    ensures var k := ClientKey(server.h, project, name, bytes);
            var id := BeginId(server.h, k);
            var honest := HonestGaps(server.h, others, id, k, bytes) && Resumable(old(server.View()), id, k, bytes);
            && (honest ==> Resumable(server.View(), id, k, bytes))
            && (honest && AsideGaps(server.h, others, id, k) && patience == None && |bytes| > 0 && CheckKey(k, extensionOk) == None ==> r.Ok?)
            && (r.Ok? ==> Served(server.h, server.View(), id, bytes))
            && (r.Ok? && honest ==> FileBytes(server.h, server.View(), id) == Ok(bytes))
  {
    var k := ClientKey(server.h, project, name, bytes);
    var id := BeginId(server.h, k);
    ghost var honest := HonestGaps(server.h, others, id, k, bytes) && Resumable(server.View(), id, k, bytes);
    if |bytes| > FILE_LIMIT || bytes == [] { return Err(Capacity); }
    Gap(server, others(0), id, k, bytes);
    BeginKeepsPrefix(server.h, server.View(), k, extensionOk, bytes);
    var started := server.BeginUpload(k, extensionOk, true);
    if started.Err? { return Err(Server(started.error)); }
    var entry := started.value;
    if !EntryMatches(entry, k) { return Err(Differs); }
    assert id in server.cells && server.cells[id].item == entry;
    if entry.status == Aborted || entry.received < 0 || entry.received > |bytes| { return Err(Inactive); }
    if entry.status != Registered { r := SendFile(server, id, k, bytes, entry.received, patience, others); }
    else { r := Ok(entry); }
    if r.Ok? { RegisteredServes(server.h, server.View(), id, k, bytes); }
  }

  /** Sends the rest of the file and has it registered. */
  method SendFile(server: Materials, id: MaterialId, k: Key, bytes: Bytes, start: int, patience: Option<nat>, others: Gaps)
    returns (r: Result<Item, ClientError>)
    requires server.Valid() && id.FileId? && k.size == |bytes| && k.pin == server.h.digest(bytes) && 0 <= start
    modifies server
    ensures server.Valid()
    ensures var honest := HonestGaps(server.h, others, id, k, bytes) && Resumable(old(server.View()), id, k, bytes);
            var aside := AsideGaps(server.h, others, id, k) && Sending(old(server.View()), id, k, bytes, start);
            (honest ==> Resumable(server.View(), id, k, bytes)) && (honest && aside && patience == None ==> r.Ok?)
    ensures r.Ok? ==> id in server.cells && EntryMatches(server.cells[id].item, k) && server.cells[id].item.status == Registered
  {
    var failed, turn := SendChunks(server, id, k, bytes, start, patience, others);
    if failed.Some? { return Err(failed.value); }
    Gap(server, others(turn), id, k, bytes);
    r := FinishFile(server, id, k, bytes);
  }

  lemma BeginKeepsPrefix(h: Hashes, s: Store, k: Key, extensionOk: bool, bytes: Bytes)
    requires Inv(h, s)
    ensures var id := BeginId(h, k);
            var s' := Step(h, s, BeginA(k, extensionOk, true));
            && (Begin(h, s, k, extensionOk, true).Ok? ==>
                  id in s'.cells && s'.cells[id].item == Begin(h, s, k, extensionOk, true).value.1
                  && s'.cells[id].item.manual && s'.cells[id].item.status != Aborted
                  && 0 <= s'.cells[id].item.received <= s'.cells[id].item.key.size)
            && (Resumable(s, id, k, bytes) ==> StoresPrefix(s', id, bytes) && Resumable(s', id, k, bytes))
  {
    var id := BeginId(h, k);
    if id in s.cells {
      assert CellInv(h, s.cells[id]);
      TiledRange(s.cells[id].chunks, 0, s.cells[id].item.received);
    }
    if Resumable(s, id, k, bytes) {
      assert StoresPrefix(s, id, bytes);
      TruthfulStep(h, s, BeginA(k, extensionOk, true), id, bytes);
    }
  }
}
