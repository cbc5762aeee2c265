/** Resumable uploads: chunk rows, the published file, abort records and attempts. */
module Uploads {
  import opened Prelude

  type Bytes = seq<bv8>
  type Digest = string

  const CHUNK_LIMIT := 128 * 1024
  const FILE_LIMIT := 128 * 1024 * 1024

  datatype MaterialId = FileId(digest: Digest) | DeliveryId(digest: Digest) | PacketId(digest: Digest)

  datatype Status = Uploading | Registered | Aborted

  /** What identifies an upload. */
  datatype Key = Key(project: string, stage: int, name: string, size: int, pin: Digest, purpose: Option<string>)

  datatype Item = Item(key: Key, manual: bool, status: Status, received: int, attempt: int)

  /** An item with its chunk rows and its published file. */
  datatype Cell = Cell(item: Item, chunks: map<int, Bytes>, file: Option<Bytes>)

  datatype AbortRecord = AbortRecord(upload: MaterialId, attempt: int, received: int)

  datatype Store = Store(cells: map<MaterialId, Cell>, operations: map<Digest, AbortRecord>)

  datatype Hashes = Hashes(ident: Key -> Digest, digest: Bytes -> Digest, event: ((MaterialId, int)) -> Digest)

  datatype Error =
    | InvalidFileName | InvalidStage | FileTooLarge | InvalidPurpose | CapacityExceeded | HashRequired | UnsupportedExtension
    | NotFound | NotUploadable | InvalidChunk | ChunkConflict | ChunkOutOfOrder
    | NotActive | Incomplete | HashMismatch | FileConflict | FileDiffers | NotComplete
    | GenerationDiffers | FinalizationPending | RecordConflict

  // ---------- joining chunk rows ----------

  ghost function Least(s: set<int>): (k: int)
    requires s != {}
    ensures k in s && forall j :: j in s ==> k <= j
  {
    assert (forall x :: x !in s) ==> s == {};
    var x :| x in s;
    if s == {x} then x else
      var y := Least(s - {x});
      assert forall j :: j in s ==> j == x || j in s - {x};
      if x < y then x else y
  }

  /** The chunk rows of an upload joined in order of their offsets. */
  ghost function Join(m: map<int, Bytes>): Bytes
    decreases |m|
  {
    if m == map[] then [] else
      var k := Least(m.Keys);
      assert k in m && |m - {k}| < |m| by { Shrinks(m, k); }
      m[k] + Join(m - {k})
  }

  lemma Shrinks(m: map<int, Bytes>, k: int)
    requires k in m
    ensures |m - {k}| == |m| - 1
  {
    assert (m - {k}).Keys == m.Keys - {k};
    assert |m| == |m.Keys| && |m - {k}| == |(m - {k}).Keys|;
  }

  /** The chunks, none longer than the limit, lie end to end from `lo` to `hi`. */
  ghost predicate Tiled(m: map<int, Bytes>, lo: int, hi: int)
    decreases |m|
  {
    if m == map[] then lo == hi
    else lo in m && 0 < |m[lo]| <= CHUNK_LIMIT && (Shrinks(m, lo); Tiled(m - {lo}, lo + |m[lo]|, hi))
  }

  lemma {:induction false} TiledRange(m: map<int, Bytes>, lo: int, hi: int)
    requires Tiled(m, lo, hi)
    ensures lo <= hi
    ensures forall k :: k in m ==> lo <= k < hi
    ensures m != map[] ==> Least(m.Keys) == lo
    ensures |Join(m)| == hi - lo
    decreases |m|
  {
    if m != map[] {
      Shrinks(m, lo);
      TiledRange(m - {lo}, lo + |m[lo]|, hi);
      assert forall k :: k in m ==> k == lo || k in m - {lo};
    }
  }

  /** The first chunk of a tiling, and what is left without it. */
  lemma TiledHead(m: map<int, Bytes>, lo: int, hi: int)
    requires m != map[]
    ensures Tiled(m, lo, hi) <==> lo in m && 0 < |m[lo]| <= CHUNK_LIMIT && Tiled(m - {lo}, lo + |m[lo]|, hi)
    ensures Tiled(m, lo, hi) ==> Join(m) == m[lo] + Join(m - {lo})
  {
    if lo in m { Shrinks(m, lo); }
    if Tiled(m, lo, hi) { TiledRange(m, lo, hi); }
  }

  lemma TiledFirst(m: map<int, Bytes>, lo: int, data: Bytes)
    requires m == map[lo := data] && 0 < |data| <= CHUNK_LIMIT
    ensures Tiled(m, lo, lo + |data|) && Join(m) == data
  {
    assert m - {lo} == map[];
    Shrinks(m, lo);
    TiledHead(m, lo, lo + |data|);
  }

  /** A chunk put at the end extends the tiling and the joined bytes. */
  lemma {:induction false} TiledAppend(m: map<int, Bytes>, lo: int, hi: int, data: Bytes)
    requires Tiled(m, lo, hi) && 0 < |data| <= CHUNK_LIMIT
    ensures hi !in m && Tiled(m[hi := data], lo, hi + |data|) && Join(m[hi := data]) == Join(m) + data
    decreases |m|
  {
    TiledRange(m, lo, hi);
    if m == map[] {
      TiledFirst(m[hi := data], hi, data);
    } else {
      TiledHead(m, lo, hi);
      Shrinks(m, lo);
      TiledAppend(m - {lo}, lo + |m[lo]|, hi, data);
      TiledGrown(m, lo, hi, data);
    }
  }

  lemma TiledGrown(m: map<int, Bytes>, lo: int, hi: int, data: Bytes)
    requires lo in m && lo < hi && 0 < |m[lo]| <= CHUNK_LIMIT
    requires var rest := (m - {lo})[hi := data];
             Tiled(rest, lo + |m[lo]|, hi + |data|) && Join(rest) == Join(m - {lo}) + data
    ensures Tiled(m[hi := data], lo, hi + |data|) && Join(m[hi := data]) == m[lo] + Join(m - {lo}) + data
  {
    assert m[hi := data] - {lo} == (m - {lo})[hi := data];
    TiledHead(m[hi := data], lo, hi + |data|);
  }

  // ---------- the operations ----------

  predicate HexDigest(pin: Digest) {
    |pin| == 64 && forall i :: 0 <= i < 64 ==> '0' <= pin[i] <= '9' || 'a' <= pin[i] <= 'f'
  }

  predicate BadNameChar(c: char) { c in {'/', '\\', '\r', '\n', '\0'} }

  /** The checks of `begin_upload`, in order; whether the file type is supported is given. */
  function CheckKey(k: Key, extensionOk: bool): Option<Error> {
    if !(0 < |k.name| <= 240) || exists i :: 0 <= i < |k.name| && BadNameChar(k.name[i]) then Some(InvalidFileName)
    else if !(1 <= k.stage <= 6) then Some(InvalidStage)
    else if !(0 <= k.size <= FILE_LIMIT) then Some(FileTooLarge)
    else if k.purpose.Some? && k.purpose.value != "stage3-planning-material" then Some(InvalidPurpose)
    else if k.purpose.Some? && !(k.stage == 3 && 0 < k.size) then Some(CapacityExceeded)
    else if !HexDigest(k.pin) then Some(HashRequired)
    else if !extensionOk then Some(UnsupportedExtension)
    else None
  }

  function BeginId(h: Hashes, k: Key): MaterialId { FileId(h.ident(k)) }

  function Begin(h: Hashes, s: Store, k: Key, extensionOk: bool, restart: bool): Result<(Store, Item), Error> {
    var refused := CheckKey(k, extensionOk);
    if refused.Some? then Err(refused.value)
    else
      var id := BeginId(h, k);
      if id !in s.cells then
        var item := Item(k, true, Uploading, 0, 1);
        Ok((s.(cells := s.cells[id := Cell(item, map[], None)]), item))
      else
        var c := s.cells[id];
        if c.item.status == Aborted && restart then
          var item := c.item.(status := Uploading, received := 0, attempt := c.item.attempt + 1);
          Ok((s.(cells := s.cells[id := c.(item := item)]), item))
        else Ok((s, c.item))
  }

  function Chunk(s: Store, id: MaterialId, offset: int, data: Bytes): Result<(Store, Item), Error> {
    if id !in s.cells then Err(NotFound)
    else
      var c := s.cells[id];
      if !c.item.manual then Err(NotUploadable)
      else if !(offset >= 0 && 0 < |data| <= CHUNK_LIMIT && offset + |data| <= c.item.key.size) then Err(InvalidChunk)
      else if offset in c.chunks then
        if c.chunks[offset] == data then Ok((s, c.item)) else Err(ChunkConflict)
      else if !(c.item.status == Uploading && offset == c.item.received) then Err(ChunkOutOfOrder)
      else
        var item := c.item.(received := c.item.received + |data|);
        Ok((s.(cells := s.cells[id := c.(item := item, chunks := c.chunks[offset := data])]), item))
  }

  /** The published bytes of a registered upload. */
  function FileBytes(h: Hashes, s: Store, id: MaterialId): Result<Bytes, Error> {
    if id !in s.cells then Err(NotFound)
    else
      var c := s.cells[id];
      if !(c.item.manual && c.item.status == Registered) then Err(NotComplete)
      else if c.file.None? then Err(FileDiffers)
      else if !(|c.file.value| == c.item.key.size && h.digest(c.file.value) == c.item.key.pin) then Err(FileDiffers)
      else Ok(c.file.value)
  }

  /** `finish_upload` up to and including the link of the file: the state a crash can leave behind. */
  ghost function Link(h: Hashes, s: Store, id: MaterialId): Result<Store, Error> {
    if id !in s.cells then Err(NotFound)
    else
      var c := s.cells[id];
      if !c.item.manual then Err(NotUploadable)
      else if c.item.status != Uploading then Err(NotActive)
      else if c.item.received != c.item.key.size then Err(Incomplete)
      else
        var data := Join(c.chunks);
        if !(|data| == c.item.key.size && h.digest(data) == c.item.key.pin) then Err(HashMismatch)
        else if c.file.Some? && c.file.value != data then Err(FileConflict)
        else Ok(s.(cells := s.cells[id := c.(file := Some(data))]))
  }

  ghost function Finish(h: Hashes, s: Store, id: MaterialId): Result<(Store, Item), Error> {
    if id in s.cells && s.cells[id].item.manual && s.cells[id].item.status == Registered then
      match FileBytes(h, s, id)
      case Ok(_) => Ok((s, s.cells[id].item))
      case Err(e) => Err(e)
    else
      match Link(h, s, id)
      case Err(e) => Err(e)
      case Ok(linked) =>
        if id !in linked.cells then Err(NotFound) else
        var c := linked.cells[id];
        var item := c.item.(status := Registered);
        Ok((linked.(cells := linked.cells[id := c.(item := item)]), item))
  }

  function Abort(h: Hashes, s: Store, id: MaterialId, generation: int): Result<(Store, Item), Error> {
    if id !in s.cells then Err(NotFound)
    else
      var c := s.cells[id];
      if !(c.item.manual && c.item.status in {Uploading, Aborted}) then Err(NotActive)
      else if generation != c.item.attempt then Err(GenerationDiffers)
      else if c.item.status == Aborted then Ok((s, c.item))
      else if c.file.Some? then Err(FinalizationPending)
      else if h.event((id, c.item.attempt)) in s.operations then Err(RecordConflict)
      else
        var item := c.item.(status := Aborted, received := 0);
        Ok((Store(s.cells[id := Cell(item, map[], None)],
                  s.operations[h.event((id, c.item.attempt)) := AbortRecord(id, c.item.attempt, c.item.received)]), item))
  }

  // ---------- runs ----------

  datatype Action =
    | BeginA(key: Key, extensionOk: bool, restart: bool)
    | ChunkA(id: MaterialId, offset: int, data: Bytes)
    | LinkA(id: MaterialId)
    | FinishA(id: MaterialId)
    | AbortA(id: MaterialId, generation: int)
    | OtherA(id: MaterialId, key: Key)

  function Kept(s: Store, r: Result<(Store, Item), Error>): Store { if r.Ok? then r.value.0 else s }

  /** One request; a refused one changes nothing, and `LinkA` is a `finish_upload` cut off by a crash. */
  ghost function Step(h: Hashes, s: Store, a: Action): Store {
    match a
    case BeginA(k, ext, restart) => Kept(s, Begin(h, s, k, ext, restart))
    case ChunkA(id, offset, data) => Kept(s, Chunk(s, id, offset, data))
    case LinkA(id) => (match Link(h, s, id) case Ok(s') => s' case Err(_) => s)
    case FinishA(id) => Kept(s, Finish(h, s, id))
    case AbortA(id, generation) => Kept(s, Abort(h, s, id, generation))
    case OtherA(id, k) =>
      // Saved deliveries and packets register under identifiers of their own.
      if id.FileId? || id in s.cells then s
      else s.(cells := s.cells[id := Cell(Item(k, false, Registered, 0, 0), map[], None)])
  }

  ghost function Run(h: Hashes, s: Store, acts: seq<Action>): Store {
    if acts == [] then s else Step(h, Run(h, s, acts[..|acts| - 1]), acts[|acts| - 1])
  }

  // ---------- the invariant ----------

  ghost predicate CellInv(h: Hashes, c: Cell) {
    c.item.manual ==>
      && 1 <= c.item.attempt && CheckKey(c.item.key, true) == None
      && Tiled(c.chunks, 0, c.item.received) && c.item.received <= c.item.key.size
      && (c.item.status == Aborted ==> c.item.received == 0 && c.chunks == map[] && c.file == None)
      && (c.item.status == Registered ==> c.file.Some?)
      && (c.file.Some? ==>
            && c.item.received == c.item.key.size
            && c.file.value == Join(c.chunks) && h.digest(c.file.value) == c.item.key.pin)
  }

  /** Attempt `n` of an upload has been given up. */
  predicate Abandoned(s: Store, id: MaterialId, n: int) {
    && id in s.cells && s.cells[id].item.manual && 1 <= n
    && (n < s.cells[id].item.attempt || (n == s.cells[id].item.attempt && s.cells[id].item.status == Aborted))
  }

  /** The abort records are exactly those of the abandoned attempts. */
  ghost predicate RecordsInv(h: Hashes, s: Store) {
    && (forall id, n :: Abandoned(s, id, n) ==>
          h.event((id, n)) in s.operations
          && s.operations[h.event((id, n))].upload == id && s.operations[h.event((id, n))].attempt == n)
    && (forall e :: e in s.operations ==>
          e == h.event((s.operations[e].upload, s.operations[e].attempt))
          && Abandoned(s, s.operations[e].upload, s.operations[e].attempt))
  }

  ghost predicate Inv(h: Hashes, s: Store) {
    && (forall id :: id in s.cells ==> CellInv(h, s.cells[id]) && (s.cells[id].item.manual <==> id.FileId?))
    && RecordsInv(h, s)
  }

  ghost predicate GoodCell(h: Hashes, s: Store, id: MaterialId) {
    id in s.cells ==> CellInv(h, s.cells[id]) && (s.cells[id].item.manual <==> id.FileId?)
  }

  lemma ChunkCell(h: Hashes, s: Store, i: MaterialId, offset: int, data: Bytes, id: MaterialId)
    requires GoodCell(h, s, id)
    ensures GoodCell(h, Kept(s, Chunk(s, i, offset, data)), id)
  {
    if id in s.cells && i == id && Chunk(s, i, offset, data).Ok? && offset !in s.cells[id].chunks {
      TiledAppend(s.cells[id].chunks, 0, s.cells[id].item.received, data);
    }
  }

  lemma BeginCell(h: Hashes, s: Store, k: Key, extensionOk: bool, restart: bool, id: MaterialId)
    requires GoodCell(h, s, id)
    ensures GoodCell(h, Kept(s, Begin(h, s, k, extensionOk, restart)), id)
  {
  }

  lemma LinkCell(h: Hashes, s: Store, i: MaterialId, id: MaterialId)
    requires GoodCell(h, s, id)
    ensures Link(h, s, i).Ok? ==> GoodCell(h, Link(h, s, i).value, id)
  {
  }

  lemma FinishCell(h: Hashes, s: Store, i: MaterialId, id: MaterialId)
    requires GoodCell(h, s, id)
    ensures GoodCell(h, Kept(s, Finish(h, s, i)), id)
  {
    LinkCell(h, s, i, id);
  }

  lemma AbortCell(h: Hashes, s: Store, i: MaterialId, generation: int, id: MaterialId)
    requires GoodCell(h, s, id)
    ensures GoodCell(h, Kept(s, Abort(h, s, i, generation)), id)
  {
  }

  lemma CellStep(h: Hashes, s: Store, a: Action, id: MaterialId)
    requires GoodCell(h, s, id)
    ensures GoodCell(h, Step(h, s, a), id)
  {
    match a
    case BeginA(k, ext, restart) => BeginCell(h, s, k, ext, restart, id);
    case ChunkA(i, offset, data) => ChunkCell(h, s, i, offset, data, id);
    case LinkA(i) => LinkCell(h, s, i, id);
    case FinishA(i) => FinishCell(h, s, i, id);
    case AbortA(i, generation) => AbortCell(h, s, i, generation, id);
    case OtherA(_, _) =>
  }

  /** Whether a step records an abort. */
  predicate Aborts(h: Hashes, s: Store, a: Action) {
    a.AbortA? && Abort(h, s, a.id, a.generation).Ok? && s.cells[a.id].item.status == Uploading
  }

  predicate Abandons(h: Hashes, s: Store, a: Action, id: MaterialId, n: int) {
    Aborts(h, s, a) && id == a.id && n == s.cells[a.id].item.attempt
  }

  /** A step abandons nothing, except an abort, which abandons the current attempt. */
  lemma AbandonedStep(h: Hashes, s: Store, a: Action, id: MaterialId, n: int)
    requires GoodCell(h, s, id)
    ensures Abandoned(Step(h, s, a), id, n) <==> Abandoned(s, id, n) || Abandons(h, s, a, id, n)
  {
  }

  lemma RecordAdded(h: Hashes, s: Store, s': Store, id: MaterialId, received: int)
    requires RecordsInv(h, s) && id in s.cells
    requires var n := s.cells[id].item.attempt;
             && h.event((id, n)) !in s.operations && s'.operations == s.operations[h.event((id, n)) := AbortRecord(id, n, received)]
             && forall i, m :: Abandoned(s', i, m) <==> Abandoned(s, i, m) || (i == id && m == n)
    ensures RecordsInv(h, s')
  {
  }

  /** Only an abort writes a record. */
  lemma RecordsKept(h: Hashes, s: Store, a: Action)
    ensures Step(h, s, a).operations ==
            if Aborts(h, s, a)
            then var c := s.cells[a.id];
                 s.operations[h.event((a.id, c.item.attempt)) := AbortRecord(a.id, c.item.attempt, c.item.received)]
            else s.operations
  {
  }

  lemma RecordsStep(h: Hashes, s: Store, a: Action)
    requires Inv(h, s)
    ensures RecordsInv(h, Step(h, s, a))
  {
    var s' := Step(h, s, a);
    forall id, n ensures Abandoned(s', id, n) <==> Abandoned(s, id, n) || Abandons(h, s, a, id, n) {
      assert GoodCell(h, s, id);
      AbandonedStep(h, s, a, id, n);
    }
    RecordsKept(h, s, a);
    if Aborts(h, s, a) {
      RecordAdded(h, s, s', a.id, s.cells[a.id].item.received);
    } else {
      assert forall id, n :: !Abandons(h, s, a, id, n);
    }
  }

  lemma StepKeeps(h: Hashes, s: Store, a: Action)
    requires Inv(h, s)
    ensures Inv(h, Step(h, s, a))
  {
    forall id | id in Step(h, s, a).cells
      ensures var c := Step(h, s, a).cells[id]; CellInv(h, c) && (c.item.manual <==> id.FileId?)
    {
      assert GoodCell(h, s, id);
      CellStep(h, s, a, id);
    }
    RecordsStep(h, s, a);
  }

  /** The invariant holds after every run of requests and crashes from the empty store. */
  lemma {:induction false} RunKeeps(h: Hashes, s: Store, acts: seq<Action>)
    requires Inv(h, s)
    ensures Inv(h, Run(h, s, acts))
  {
    if acts != [] {
      RunKeeps(h, s, acts[..|acts| - 1]);
      StepKeeps(h, Run(h, s, acts[..|acts| - 1]), acts[|acts| - 1]);
    }
  }
}
