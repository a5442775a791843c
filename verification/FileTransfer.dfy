/** File transfer: upload requests, chunks, reassembly, download, and the chunk table behind them. */
module FileTransfers {
  import opened Base

  type FileId = string
  type SessionId = nat
  type Word = n: nat | n < 0x1_0000_0000
  type Long = n: nat | n < 0x1_0000_0000_0000_0000

  const MAX_FILE_SIZE: nat := 100 * 1024 * 1024
  const DEFAULT_CHUNK_SIZE: Word := 65536
  const TTL_SECONDS: int := 7 * 24 * 3600

  type Chunks = map<nat, Bytes>

  /** A row of the file table with the chunk rows that refer to it: no chunk row outlives its file. */
  datatype File = File(size: nat, expiresAt: int, complete: bool, chunks: Chunks)

  type Files = map<FileId, File>

  datatype Upload = Upload(fileSize: nat, chunkSize: nat, totalChunks: nat, received: seq<bool>, bytesReceived: nat)

  /** Uploads belong to the session that started them. */
  datatype Ticket = Ticket(session: SessionId, file: FileId)

  datatype State = State(files: Files, uploads: map<Ticket, Upload>)

  const EMPTY_STATE := State(map[], map[])

  datatype Outcome =
    | Uploading(bytes: nat)
    | EmptyFile | TooLarge | CreateFailed
    | RateLimited | NotStarted | InvalidIndex | StoreFailed
    | ThreatDetected(scanned: Bytes)
    | Completed(bytes: nat, scanned: Bytes)

  // ----- The table -------------------------------------------------------------------------

  /** The chunk rows of a file. */
  function Rows(files: Files, f: FileId): Chunks {
    if f in files then files[f].chunks else map[]
  }

  /** A chunk needs its file row, and its data column may not be null, which is what an empty chunk
      is bound as. */
  predicate CanStore(files: Files, f: FileId, data: Bytes) {
    f in files && data != []
  }

  function StoreChunk(files: Files, f: FileId, i: nat, data: Bytes): Files
    requires f in files
  {
    files[f := files[f].(chunks := files[f].chunks[i := data])]
  }

  function Expire(files: Files, now: int): Files {
    map f | f in files && files[f].expiresAt > now :: files[f]
  }

  /** The chunks lo..hi that exist, joined in the order of their indices. */
  function Joined(chunks: Chunks, lo: nat, hi: nat): Bytes
    decreases hi
  {
    if hi <= lo then []
    else Joined(chunks, lo, hi - 1) + if hi - 1 in chunks then chunks[hi - 1] else []
  }

  /** The total size of the chunks below `n`. */
  function SizeBelow(chunks: Chunks, n: nat): nat {
    if n == 0 then 0 else SizeBelow(chunks, n - 1) + if n - 1 in chunks then |chunks[n - 1]| else 0
  }

  /** The indices below `n` without a chunk, in increasing order. */
  function Missing(chunks: Chunks, n: nat): seq<nat> {
    if n == 0 then [] else Missing(chunks, n - 1) + if n - 1 in chunks then [] else [n - 1]
  }

  // ----- The handlers ------------------------------------------------------------------------

  function ChunkSizeOf(requested: Word): (cs: nat)
    ensures cs > 0
  {
    if requested > 0 then requested else DEFAULT_CHUNK_SIZE
  }

  /** The number of chunks, cut to 32 bits. */
  function TotalChunks(size: nat, chunkSize: nat): nat
    requires chunkSize > 0
  {
    CeilDiv(size, chunkSize) % 0x1_0000_0000
  }

  /** Growing fills up with `false`; what is there stays. */
  function Resized(bits: seq<bool>, n: nat): (r: seq<bool>)
    ensures |r| == n
  {
    if |bits| >= n then bits[..n] else bits + seq(n - |bits|, i => false)
  }

  function HandleRequest(st: State, s: SessionId, f: FileId, size: Long, requested: Word, now: int): (State, Outcome) {
    if size == 0 then (st, EmptyFile)
    else if size > MAX_FILE_SIZE then (st, TooLarge)
    else if f in st.files then (st, CreateFailed)
    else
      var t, total := Ticket(s, f), TotalChunks(size, ChunkSizeOf(requested));
      var bits := if t in st.uploads then st.uploads[t].received else [];
      (State(st.files[f := File(size, now + TTL_SECONDS, false, map[])],
             st.uploads[t := Upload(size, ChunkSizeOf(requested), total, Resized(bits, total), 0)]),
       Uploading(0))
  }

  /** How far a chunk gets: None if it is stored. */
  function Obstacle(st: State, s: SessionId, f: FileId, i: nat, data: Bytes, admitted: bool): Option<Outcome> {
    var t := Ticket(s, f);
    if !admitted then Some(RateLimited)
    else if t !in st.uploads then Some(NotStarted)
    else if i >= st.uploads[t].totalChunks then Some(InvalidIndex)
    else if !CanStore(st.files, f, data) then Some(StoreFailed)
    else None
  }

  /** One chunk; `admitted` is the verdict of the session's rate limiter. */
  function Received(st: State, s: SessionId, f: FileId, i: nat, data: Bytes): State
    requires Ticket(s, f) in st.uploads && f in st.files && i < |st.uploads[Ticket(s, f)].received|
  {
    var t := Ticket(s, f);
    var u := st.uploads[t];
    State(StoreChunk(st.files, f, i, data),
          st.uploads[t := u.(received := u.received[i := true], bytesReceived := u.bytesReceived + |data|)])
  }

  /** After the last chunk the file is put together and scanned; `threat` is the verdict on it. */
  function Finished(st: State, t: Ticket, threat: bool): (State, Outcome)
    requires t in st.uploads && t.file in st.files
  {
    var u, f := st.uploads[t], t.file;
    var scanned := Joined(st.files[f].chunks, 0, u.totalChunks);
    if threat then (State(st.files - {f}, st.uploads - {t}), ThreatDetected(scanned))
    else (State(st.files[f := st.files[f].(complete := true)], st.uploads - {t}), Completed(u.bytesReceived, scanned))
  }

  /** Every upload has one bit for each of its chunks. */
  ghost predicate Sized(st: State) {
    forall t | t in st.uploads :: |st.uploads[t].received| == st.uploads[t].totalChunks
  }

  function HandleUpload(st: State, s: SessionId, f: FileId, i: nat, data: Bytes, isLast: bool, admitted: bool,
                        threat: bool): (State, Outcome)
    requires Sized(st)
  {
    match Obstacle(st, s, f, i, data, admitted)
    case Some(outcome) => (st, outcome)
    case None =>
      var st' := Received(st, s, f, i, data);
      if isLast then Finished(st', Ticket(s, f), threat) else (st', Uploading(st'.uploads[Ticket(s, f)].bytesReceived))
  }

  /** The session is gone, and its uploads with it. */
  function Close(st: State, s: SessionId): State {
    st.(uploads := map t | t in st.uploads && t.session != s :: st.uploads[t])
  }

  datatype FileChunk = FileChunk(index: nat, data: Bytes, isLast: bool)

  datatype Ending = FileNotFound | Sent | ChunkNotFound(index: nat)

  /** The chunks `from`.. up to the first that is missing; chunks count as 64 KB, whatever their size. */
  function Served(chunks: Chunks, from: nat, total: nat): (seq<FileChunk>, Ending)
    decreases total - from
  {
    if from >= total then ([], Sent)
    else if from !in chunks then ([], ChunkNotFound(from))
    else
      var (more, ending) := Served(chunks, from + 1, total);
      ([FileChunk(from, chunks[from], from == total - 1)] + more, ending)
  }

  function HandleDownload(files: Files, f: FileId, from: Word): (seq<FileChunk>, Ending) {
    if f !in files then ([], FileNotFound)
    else Served(files[f].chunks, from, CeilDiv(files[f].size, DEFAULT_CHUNK_SIZE))
  }

  class FileServer {
    var files: Files
    var uploads: map<Ticket, Upload>

    ghost function Abstract(): State
      reads this
    {
      State(files, uploads)
    }

    constructor ()
      ensures Abstract() == EMPTY_STATE
    {
      files, uploads := map[], map[];
    }

    method RequestUpload(s: SessionId, f: FileId, size: Long, requested: Word, now: int) returns (outcome: Outcome)
      modifies this
      ensures (Abstract(), outcome) == HandleRequest(old(Abstract()), s, f, size, requested, now)
    {
      if size == 0 {
        return EmptyFile;
      }
      if size > MAX_FILE_SIZE {
        return TooLarge;
      }
      if f in files {
        return CreateFailed;
      }
      files := files[f := File(size, now + TTL_SECONDS, false, map[])];
      var t := Ticket(s, f);
      var upload := if t in uploads then uploads[t] else Upload(0, DEFAULT_CHUNK_SIZE, 0, [], 0);
      upload := upload.(fileSize := size, chunkSize := ChunkSizeOf(requested));
      upload := upload.(totalChunks := TotalChunks(size, upload.chunkSize));
      upload := upload.(received := Resized(upload.received, upload.totalChunks), bytesReceived := 0);
      uploads := uploads[t := upload];
      return Uploading(0);
    }

    method ReceiveChunk(s: SessionId, f: FileId, i: Word, data: Bytes, isLast: bool, admitted: bool, threat: bool)
      returns (outcome: Outcome)
      requires Sized(Abstract())
      modifies this
      ensures (Abstract(), outcome) == HandleUpload(old(Abstract()), s, f, i, data, isLast, admitted, threat)
    {
      var t := Ticket(s, f);
      if !admitted {
        return RateLimited;
      }
      if t !in uploads {
        return NotStarted;
      }
      var upload := uploads[t];
      if i >= upload.totalChunks {
        return InvalidIndex;
      }
      if f !in files || data == [] {
        return StoreFailed;
      }
      files := files[f := files[f].(chunks := files[f].chunks[i := data])];
      upload := upload.(received := upload.received[i := true], bytesReceived := upload.bytesReceived + |data|);
      uploads := uploads[t := upload];
      if isLast {
        var assembled := Assemble(files[f].chunks, upload.totalChunks);
        uploads := uploads - {t};
        if threat {
          files := files - {f};
          return ThreatDetected(assembled);
        }
        files := files[f := files[f].(complete := true)];
        return Completed(upload.bytesReceived, assembled);
      }
      return Uploading(upload.bytesReceived);
    }

    method CloseSession(s: SessionId)
      modifies this`uploads
      ensures Abstract() == Close(old(Abstract()), s)
    {
      uploads := map t | t in uploads && t.session != s :: uploads[t];
    }

    /** Deletes the expired rows one after the other, and with each the chunks that refer to it. */
    method CleanupExpired(now: int)
      modifies this`files
      ensures files == Expire(old(files), now)
    {
      var pending := files.Keys;
      while pending != {}
        invariant files.Keys <= old(files).Keys && pending <= old(files).Keys
        invariant forall f | f in files :: files[f] == old(files)[f]
        invariant forall f | f in old(files) :: f in files <==> f in pending || old(files)[f].expiresAt > now
        decreases |pending|
      {
        var f :| f in pending;
        if files[f].expiresAt <= now {
          files := files - {f};
        }
        pending := pending - {f};
      }
      assert files == Expire(old(files), now);
    }

    /** Sends one chunk after the other. */
    method Download(f: FileId, from: Word) returns (sent: seq<FileChunk>, ending: Ending)
      ensures (sent, ending) == HandleDownload(files, f, from)
    {
      if f !in files {
        return [], FileNotFound;
      }
      var chunks, total := files[f].chunks, CeilDiv(files[f].size, DEFAULT_CHUNK_SIZE);
      sent := [];
      var i: nat := from;
      assert [] + Served(chunks, i, total).0 == Served(chunks, i, total).0;
      while i < total
        invariant from <= i
        invariant Served(chunks, from, total) == (sent + Served(chunks, i, total).0, Served(chunks, i, total).1)
      {
        if i !in chunks {
          assert sent + [] == sent;
          return sent, ChunkNotFound(i);
        }
        ghost var more := Served(chunks, i + 1, total).0;
        var chunk := FileChunk(i, chunks[i], i == total - 1);
        assert (sent + [chunk]) + more == sent + ([chunk] + more);
        sent := sent + [chunk];
        i := i + 1;
      }
      assert sent + [] == sent;
      return sent, Sent;
    }
  }

  /** Puts the chunks together, skipping those that are missing. */
  method Assemble(chunks: Chunks, total: nat) returns (assembled: Bytes)
    ensures assembled == Joined(chunks, 0, total)
  {
    assembled := [];
    for i := 0 to total
      invariant assembled == Joined(chunks, 0, i)
    {
      if i in chunks {
        assembled := assembled + chunks[i];
      }
    }
  }

  method MarkRows(chunks: Chunks, total: nat) returns (has: seq<bool>)
    ensures |has| == total && forall i | 0 <= i < total :: has[i] <==> i in chunks
  {
    has := seq(total, i => false);
    var pending := chunks.Keys;
    while pending != {}
      invariant pending <= chunks.Keys && |has| == total
      invariant forall i | 0 <= i < total :: has[i] <==> i in chunks && i !in pending
      decreases |pending|
    {
      var i :| i in pending;
      pending := pending - {i};
      if i < total {
        has := has[i := true];
      }
    }
  }

  /** Marks the rows found, in whatever order they come, then lists what is unmarked. */
  method GetMissingChunks(chunks: Chunks, total: nat) returns (missing: seq<nat>)
    ensures missing == Missing(chunks, total)
  {
    var has := MarkRows(chunks, total);
    missing := [];
    for i := 0 to total
      invariant missing == Missing(chunks, i)
    {
      if !has[i] {
        missing := missing + [i];
      }
    }
  }

  /** The size of all rows, added up in whatever order they come. */
  method GetReceivedBytes(chunks: Chunks, ghost bound: nat) returns (bytes: nat)
    requires forall i | i in chunks :: i < bound
    ensures bytes == SizeBelow(chunks, bound)
  {
    bytes := 0;
    var rest := chunks;
    while rest != map[]
      invariant forall i | i in rest :: i in chunks && rest[i] == chunks[i]
      invariant bytes + SizeBelow(rest, bound) == SizeBelow(chunks, bound)
      decreases |rest|
    {
      var i :| i in rest;
      bytes := bytes + |rest[i]|;
      SizeWithout(rest, i, bound);
      rest := rest - {i};
    }
    SizeOfNothing(bound);
  }

  lemma {:induction false} SizeOfNothing(n: nat)
    ensures SizeBelow(map[], n) == 0
  {
    if n > 0 {
      SizeOfNothing(n - 1);
    }
  }

  lemma {:induction false} SizeWithout(chunks: Chunks, i: nat, n: nat)
    requires i in chunks
    ensures SizeBelow(chunks, n) == SizeBelow(chunks - {i}, n) + if i < n then |chunks[i]| else 0
  {
    if n > 0 {
      SizeWithout(chunks, i, n - 1);
    }
  }

  lemma {:induction false} SizeAfterStore(chunks: Chunks, i: nat, data: Bytes, n: nat)
    ensures SizeBelow(chunks[i := data], n)
         == SizeBelow(chunks, n) + if i < n then |data| - (if i in chunks then |chunks[i]| else 0) else 0
  {
    if n > 0 {
      SizeAfterStore(chunks, i, data, n - 1);
    }
  }

  // ----- Arithmetic ---------------------------------------------------------------------------

  /** No accepted file has more chunks than bytes, so cutting their number to 32 bits, or an index to
      a signed integer, loses nothing. */
  lemma TotalChunksInRange(size: Long, requested: Word)
    requires 0 < size <= 104857600
    ensures var total := TotalChunks(size, ChunkSizeOf(requested));
      && total == CeilDiv(size, ChunkSizeOf(requested))
      && 1 <= total <= 104857600 < 0x8000_0000
  {
    var cs := ChunkSizeOf(requested);
    assert size * cs == size * (cs - 1) + size;
    CeilDivIsLeast(size, cs, size);
  }

  /** What the list of missing chunks is: every index without a row, once, in increasing order. */
  lemma {:induction false} MissingIsExact(chunks: Chunks, n: nat)
    ensures forall i: nat :: i in Missing(chunks, n) <==> i < n && i !in chunks
    ensures forall i, j | 0 <= i < j < |Missing(chunks, n)| :: Missing(chunks, n)[i] < Missing(chunks, n)[j]
  {
    if n > 0 {
      MissingIsExact(chunks, n - 1);
      var m := Missing(chunks, n - 1);
      forall j | 0 <= j < |m| ensures m[j] < n - 1 {
        assert m[j] in m;
      }
    }
  }

  // ----- Runs of all sessions ---------------------------------------------------------------------

  datatype Event =
    | Request(session: SessionId, file: FileId, size: Long, requested: Word, at: int)
    | Chunk(session: SessionId, file: FileId, index: Word, data: Bytes, isLast: bool, admitted: bool, threat: bool)
    | Cleanup(at: int)
    | Closed(session: SessionId)

  function Next(st: State, e: Event): (st': State)
    requires Sized(st)
    ensures Sized(st')
  {
    match e
    case Request(s, f, size, requested, at) => HandleRequest(st, s, f, size, requested, at).0
    case Chunk(s, f, i, data, isLast, admitted, threat) => HandleUpload(st, s, f, i, data, isLast, admitted, threat).0
    case Cleanup(at) => st.(files := Expire(st.files, at))
    case Closed(s) => Close(st, s)
  }

  function Run(st: State, events: seq<Event>): (st': State)
    requires Sized(st)
    ensures Sized(st')
  {
    if events == [] then st else Next(Run(st, events[..|events| - 1]), events[|events| - 1])
  }

  predicate Starts(st: State, e: Event, f: FileId) {
    e.Request? && e.file == f && HandleRequest(st, e.session, f, e.size, e.requested, e.at).1.Uploading?
  }

  predicate Stores(st: State, e: Event, f: FileId) {
    e.Chunk? && e.file == f && Obstacle(st, e.session, f, e.index, e.data, e.admitted) == None
  }

  predicate Drops(st: State, e: Event, f: FileId) {
    e.Cleanup? && f in st.files && st.files[f].expiresAt <= e.at
  }

  /** Some session is uploading the file. */
  ghost predicate IsOpen(st: State, f: FileId) {
    exists t :: t in st.uploads && t.file == f
  }

  /** At no point of the run does the cleanup drop the file under an open upload. */
  ghost predicate NeverDroppedOpen(events: seq<Event>, f: FileId) {
    forall i | 0 <= i < |events| ::
      !(Drops(Run(EMPTY_STATE, events[..i]), events[i], f) && IsOpen(Run(EMPTY_STATE, events[..i]), f))
  }

  lemma NeverDroppedPrefix(events: seq<Event>, f: FileId)
    requires events != [] && NeverDroppedOpen(events, f)
    ensures NeverDroppedOpen(events[..|events| - 1], f)
    ensures var st := Run(EMPTY_STATE, events[..|events| - 1]);
      !(Drops(st, events[|events| - 1], f) && IsOpen(st, f))
  {
    var prefix := events[..|events| - 1];
    forall i | 0 <= i < |prefix|
      ensures !(Drops(Run(EMPTY_STATE, prefix[..i]), prefix[i], f) && IsOpen(Run(EMPTY_STATE, prefix[..i]), f))
    {
      assert prefix[..i] == events[..i];
    }
  }

  // ----- The index of an upload and the table -----------------------------------------------------

  /** The bit of every chunk tells whether its row exists. */
  ghost predicate Agrees(u: Upload, chunks: Chunks) {
    && |u.received| == u.totalChunks
    && (forall i | 0 <= i < u.totalChunks :: u.received[i] <==> i in chunks)
    && (forall i | i in chunks :: i < u.totalChunks)
  }

  /** One session at most uploads the file, and its index agrees with the table. */
  ghost predicate Sound(st: State, f: FileId) {
    && (forall t, t' | t in st.uploads && t' in st.uploads && t.file == f && t'.file == f :: t == t')
    && (forall t | t in st.uploads && t.file == f ::
          && f in st.files && Agrees(st.uploads[t], st.files[f].chunks)
          && 1 <= st.uploads[t].totalChunks <= 104857600)
  }

  /** The bytes counted are those in the table and those that have been overwritten. */
  ghost predicate Balanced(st: State, f: FileId, overwritten: nat) {
    forall t | t in st.uploads && t.file == f ::
      st.uploads[t].bytesReceived == SizeBelow(Rows(st.files, f), st.uploads[t].totalChunks) + overwritten
  }

  /** How many bytes of the current upload of `f` have been overwritten by re-sent chunks. */
  function Overwritten(events: seq<Event>, f: FileId): nat {
    if events == [] then 0
    else
      var prefix, e := events[..|events| - 1], events[|events| - 1];
      var st := Run(EMPTY_STATE, prefix);
      if Starts(st, e, f) then 0
      else Overwritten(prefix, f) + OverwrittenBy(st, e, f)
  }

  function OverwrittenBy(st: State, e: Event, f: FileId): nat {
    if Stores(st, e, f) && e.index in Rows(st.files, f) then |st.files[f].chunks[e.index]| else 0
  }

  lemma StartKeeps(st: State, e: Event, f: FileId)
    requires Sized(st) && Sound(st, f) && Starts(st, e, f)
    ensures Sound(Next(st, e), f) && Balanced(Next(st, e), f, 0)
  {
    TotalChunksInRange(e.size, e.requested);
    assert Ticket(e.session, f) !in st.uploads;
    SizeOfNothing(TotalChunks(e.size, ChunkSizeOf(e.requested)));
  }

  lemma StoreKeeps(st: State, e: Event, f: FileId, w: nat)
    requires Sized(st) && Sound(st, f) && Stores(st, e, f)
    ensures Sound(Next(st, e), f)
    ensures Balanced(st, f, w) ==> Balanced(Next(st, e), f, w + OverwrittenBy(st, e, f))
  {
    var t := Ticket(e.session, f);
    var st' := Received(st, e.session, f, e.index, e.data);
    SizeAfterStore(st.files[f].chunks, e.index, e.data, st.uploads[t].totalChunks);
    assert Agrees(st'.uploads[t], st'.files[f].chunks);
    assert Sound(st', f);
    assert Balanced(st, f, w) ==> Balanced(st', f, w + OverwrittenBy(st, e, f));
    if e.isLast {
      assert forall t' | t' in st'.uploads - {t} :: t'.file != f;
    }
  }

  /** A step that leaves the rows of `f` alone and starts no upload of it. */
  ghost predicate Spares(st: State, st': State, f: FileId) {
    && (f in st.files ==> f in st'.files && st'.files[f].chunks == st.files[f].chunks)
    && (forall t | t in st'.uploads && t.file == f :: t in st.uploads && st'.uploads[t] == st.uploads[t])
  }

  lemma SparesKeeps(st: State, st': State, f: FileId, w: nat)
    requires Sound(st, f) && Spares(st, st', f)
    ensures Sound(st', f)
    ensures Balanced(st, f, w) ==> Balanced(st', f, w)
  {
  }

  lemma OtherChunkSpares(st: State, e: Event, f: FileId)
    requires Sized(st) && e.Chunk? && !Stores(st, e, f)
    ensures Spares(st, Next(st, e), f)
  {
  }

  lemma RestSpares(st: State, e: Event, f: FileId)
    requires Sized(st) && !Starts(st, e, f) && !Stores(st, e, f) && !Drops(st, e, f)
    ensures Spares(st, Next(st, e), f)
  {
    if e.Chunk? {
      OtherChunkSpares(st, e, f);
    }
  }

  lemma ClosedDropKeeps(st: State, e: Event, f: FileId, w: nat)
    requires Sized(st) && Drops(st, e, f) && !IsOpen(st, f)
    ensures Sound(Next(st, e), f) && Balanced(Next(st, e), f, w)
  {
    assert Next(st, e).uploads == st.uploads;
  }

  /** An index that agrees with the table goes on agreeing through every event but one: a cleanup that
      drops the file under an open upload. */
  lemma SoundIff(st: State, e: Event, f: FileId)
    requires Sized(st) && Sound(st, f)
    ensures Sound(Next(st, e), f) <==> !(Drops(st, e, f) && IsOpen(st, f))
  {
    if Starts(st, e, f) {
      StartKeeps(st, e, f);
    } else if Stores(st, e, f) {
      StoreKeeps(st, e, f, 0);
    } else if Drops(st, e, f) {
      assert Next(st, e).uploads == st.uploads && f !in Next(st, e).files;
    } else {
      RestSpares(st, e, f);
      SparesKeeps(st, Next(st, e), f, 0);
    }
  }

  /** In every run of all sessions in which the cleanup never drops file `f` while it is being uploaded:
      at most one session uploads it, its bits agree with the rows of the table, and it has counted the
      bytes in the table and the bytes overwritten by re-sends. */
  lemma {:induction false} UploadAgreement(events: seq<Event>, f: FileId)
    requires NeverDroppedOpen(events, f)
    ensures Sound(Run(EMPTY_STATE, events), f) && Balanced(Run(EMPTY_STATE, events), f, Overwritten(events, f))
    decreases |events|
  {
    if events != [] {
      var prefix, e := events[..|events| - 1], events[|events| - 1];
      var st := Run(EMPTY_STATE, prefix);
      NeverDroppedPrefix(events, f);
      UploadAgreement(prefix, f);
      if Starts(st, e, f) {
        StartKeeps(st, e, f);
      } else if Stores(st, e, f) {
        StoreKeeps(st, e, f, Overwritten(prefix, f));
      } else if Drops(st, e, f) {
        ClosedDropKeeps(st, e, f, Overwritten(events, f));
      } else {
        RestSpares(st, e, f);
        SparesKeeps(st, Next(st, e), f, Overwritten(prefix, f));
      }
    }
  }

  /** The indices of the unset bits, in increasing order. */
  function Unset(bits: seq<bool>): seq<nat> {
    if bits == [] then [] else Unset(bits[..|bits| - 1]) + if bits[|bits| - 1] then [] else [|bits| - 1]
  }

  lemma {:induction false} MissingIsUnset(bits: seq<bool>, chunks: Chunks)
    requires forall i | 0 <= i < |bits| :: bits[i] <==> i in chunks
    ensures Missing(chunks, |bits|) == Unset(bits)
    decreases |bits|
  {
    if bits != [] {
      MissingIsUnset(bits[..|bits| - 1], chunks);
    }
  }

  /** So the missing chunks of an active upload are exactly its unset bits. */
  lemma MissingChunksAreUnsetBits(events: seq<Event>, t: Ticket)
    requires NeverDroppedOpen(events, t.file)
    requires t in Run(EMPTY_STATE, events).uploads
    ensures var st := Run(EMPTY_STATE, events);
      Missing(Rows(st.files, t.file), st.uploads[t].totalChunks) == Unset(st.uploads[t].received)
  {
    UploadAgreement(events, t.file);
    var st := Run(EMPTY_STATE, events);
    MissingIsUnset(st.uploads[t].received, Rows(st.files, t.file));
  }

  /** A request that is accepted starts out in agreement with the table exactly when the session has no
      upload of that file left over whose bits say otherwise. */
  lemma RequestAgreesIff(st: State, s: SessionId, f: FileId, size: Long, requested: Word, now: int)
    requires HandleRequest(st, s, f, size, requested, now).1.Uploading?
    ensures var st', t := HandleRequest(st, s, f, size, requested, now).0, Ticket(s, f);
      Agrees(st'.uploads[t], st'.files[f].chunks) <==>
        (t in st.uploads ==> forall i | 0 <= i < |st.uploads[t].received| && i < st'.uploads[t].totalChunks ::
           !st.uploads[t].received[i])
  {
    var st', t := HandleRequest(st, s, f, size, requested, now).0, Ticket(s, f);
    var bits := st'.uploads[t].received;
    if t in st.uploads {
      var stale := st.uploads[t].received;
      assert forall i | 0 <= i < |stale| && i < |bits| :: bits[i] == stale[i];
    }
  }

  lemma RunSnoc(st: State, events: seq<Event>, e: Event)
    requires Sized(st)
    ensures Run(st, events + [e]) == Next(Run(st, events), e)
  {
    assert (events + [e])[..|events|] == events;
  }

  lemma AfterFirstChunk(f: FileId, data: Bytes)
    requires data != []
    ensures var st := Run(EMPTY_STATE, [Request(1, f, 2, 1, 0)] + [Chunk(1, f, 0, data, false, true, false)]);
      && f in st.files && st.files[f].expiresAt == TTL_SECONDS
      && Ticket(1, f) in st.uploads && st.uploads[Ticket(1, f)].received == [true, false]
  {
    RunSnoc(EMPTY_STATE, [], Request(1, f, 2, 1, 0));
    assert [] + [Request(1, f, 2, 1, 0)] == [Request(1, f, 2, 1, 0)];
    RunSnoc(EMPTY_STATE, [Request(1, f, 2, 1, 0)], Chunk(1, f, 0, data, false, true, false));
    assert TotalChunks(2, 1) == 2;
  }

  /** It happens when the cleanup drops a file under an upload and the session asks for it again. */
  lemma StaleBits(f: FileId, data: Bytes)
    requires data != []
    ensures var events := [Request(1, f, 2, 1, 0)] + [Chunk(1, f, 0, data, false, true, false)]
                          + [Cleanup(TTL_SECONDS)];
      var st := Run(EMPTY_STATE, events + [Request(1, f, 2, 1, TTL_SECONDS)]);
      && Ticket(1, f) in st.uploads && f in st.files
      && !Agrees(st.uploads[Ticket(1, f)], st.files[f].chunks)
  {
    var two := [Request(1, f, 2, 1, 0)] + [Chunk(1, f, 0, data, false, true, false)];
    AfterFirstChunk(f, data);
    RunSnoc(EMPTY_STATE, two, Cleanup(TTL_SECONDS));
    RunSnoc(EMPTY_STATE, two + [Cleanup(TTL_SECONDS)], Request(1, f, 2, 1, TTL_SECONDS));
    var st := Run(EMPTY_STATE, two + [Cleanup(TTL_SECONDS)]);
    assert st.uploads[Ticket(1, f)].received[0];
    RequestAgreesIff(st, 1, f, 2, 1, TTL_SECONDS);
  }

  // ----- Chunking and reassembly --------------------------------------------------------------------

  /** Where chunk `i` of some data begins. */
  function Cut(data: Bytes, cs: nat, i: nat): (k: nat)
    ensures k <= |data|
  {
    if i * cs < |data| then i * cs else |data|
  }

  lemma CutAdvances(data: Bytes, cs: nat, i: nat)
    ensures Cut(data, cs, i) <= Cut(data, cs, i + 1)
  {
    assert (i + 1) * cs == i * cs + cs;
  }

  /** Chunk `i` of some data. */
  function Slice(data: Bytes, cs: nat, i: nat): Bytes {
    CutAdvances(data, cs, i);
    data[Cut(data, cs, i)..Cut(data, cs, i + 1)]
  }

  ghost predicate AreSlices(chunks: Chunks, data: Bytes, cs: nat) {
    forall i | i in chunks :: chunks[i] == Slice(data, cs, i)
  }

  lemma {:induction false} CutsAdvance(data: Bytes, cs: nat, lo: nat, hi: nat)
    requires lo <= hi
    ensures Cut(data, cs, lo) <= Cut(data, cs, hi)
    decreases hi
  {
    if lo < hi {
      CutsAdvance(data, cs, lo, hi - 1);
      CutAdvances(data, cs, hi - 1);
    }
  }

  lemma StretchJoins(data: Bytes, a: nat, b: nat, c: nat)
    requires a <= b <= c <= |data|
    ensures data[a..b] + data[b..c] == data[a..c]
  {
  }

  /** Joining consecutive slices gives back the stretch of the data they were cut from. */
  lemma {:induction false} JoinedSlices(chunks: Chunks, data: Bytes, cs: nat, lo: nat, hi: nat)
    requires lo <= hi && AreSlices(chunks, data, cs)
    requires forall i | lo <= i < hi :: i in chunks
    ensures Cut(data, cs, lo) <= Cut(data, cs, hi)
    ensures Joined(chunks, lo, hi) == data[Cut(data, cs, lo)..Cut(data, cs, hi)]
    decreases hi
  {
    CutsAdvance(data, cs, lo, hi);
    if lo < hi {
      JoinedSlices(chunks, data, cs, lo, hi - 1);
      CutAdvances(data, cs, hi - 1);
      StretchJoins(data, Cut(data, cs, lo), Cut(data, cs, hi - 1), Cut(data, cs, hi));
    }
  }

  lemma CutEnds(data: Bytes, cs: nat)
    requires cs > 0
    ensures Cut(data, cs, 0) == 0 && Cut(data, cs, CeilDiv(|data|, cs)) == |data|
  {
  }

  /** Exactly the slices of the data are in the table. */
  ghost predicate Holds(file: File, data: Bytes, cs: nat)
    requires cs > 0
  {
    && file.size == |data| && AreSlices(file.chunks, data, cs)
    && forall i: nat :: i in file.chunks <==> i < CeilDiv(|data|, cs)
  }

  lemma JoinedIsData(chunks: Chunks, data: Bytes, cs: nat)
    requires cs > 0 && AreSlices(chunks, data, cs)
    requires forall i | 0 <= i < CeilDiv(|data|, cs) :: i in chunks
    ensures Joined(chunks, 0, CeilDiv(|data|, cs)) == data
  {
    CutEnds(data, cs);
    JoinedSlices(chunks, data, cs, 0, CeilDiv(|data|, cs));
    assert data[0..|data|] == data;
  }

  lemma SliceIsNonempty(data: Bytes, cs: nat, i: nat)
    requires cs > 0 && i < CeilDiv(|data|, cs)
    ensures Slice(data, cs, i) != []
  {
    assert i * cs < |data| by {
      assert i * cs <= (CeilDiv(|data|, cs) - 1) * cs;
    }
    assert (i + 1) * cs == i * cs + cs;
  }

  /** Session `s` is uploading the slices of `data` as file `f`, and nobody else is. */
  ghost predicate Filling(st: State, s: SessionId, f: FileId, data: Bytes, cs: nat, deadline: int)
    requires cs > 0
  {
    && Sized(st)
    && Ticket(s, f) in st.uploads && (forall t | t in st.uploads && t.file == f :: t.session == s)
    && st.uploads[Ticket(s, f)].totalChunks == CeilDiv(|data|, cs)
    && f in st.files && st.files[f].size == |data| && st.files[f].expiresAt == deadline
    && AreSlices(st.files[f].chunks, data, cs)
    && (forall i | i in st.files[f].chunks :: i < CeilDiv(|data|, cs))
  }

  /** An event that does not end the upload: whatever `s` sends as a chunk of `f` and is not turned down,
      by the limiter or for its index or because it is empty, is a slice and not the last one; cleanup
      comes before the file expires; anything else is free. */
  predicate Fair(e: Event, s: SessionId, f: FileId, data: Bytes, cs: nat, deadline: int)
    requires cs > 0
  {
    match e
    case Request(_, _, _, _, _) => true
    case Chunk(s', f', i, d, isLast, admitted, _) =>
      s' == s && f' == f && admitted && i < CeilDiv(|data|, cs) && d != [] ==> !isLast && d == Slice(data, cs, i)
    case Cleanup(at) => at < deadline
    case Closed(s') => s' != s
  }

  /** The event sends something as chunk `i`, and the rate limiter lets it pass. */
  predicate Sends(e: Event, s: SessionId, f: FileId, i: nat) {
    e.Chunk? && e.session == s && e.file == f && e.index == i && e.admitted && e.data != []
  }

  lemma SliceStored(st: State, e: Event, s: SessionId, f: FileId, data: Bytes, cs: nat, deadline: int)
    requires cs > 0 && Filling(st, s, f, data, cs, deadline)
    requires e.Chunk? && e.session == s && e.file == f && e.data == Slice(data, cs, e.index) && !e.isLast
    requires e.admitted && e.index < CeilDiv(|data|, cs)
    ensures var st' := Next(st, e);
      && Filling(st', s, f, data, cs, deadline)
      && st'.files[f].chunks.Keys == st.files[f].chunks.Keys + {e.index}
  {
    SliceIsNonempty(data, cs, e.index);
    assert Obstacle(st, s, f, e.index, e.data, true) == None;
    assert Next(st, e) == Received(st, s, f, e.index, e.data);
  }

  lemma ChunkSparesFilling(st: State, e: Event, s: SessionId, f: FileId, data: Bytes, cs: nat, deadline: int)
    requires cs > 0 && Filling(st, s, f, data, cs, deadline) && Fair(e, s, f, data, cs, deadline)
    requires e.Chunk? && !Stores(st, e, f)
    ensures Filling(Next(st, e), s, f, data, cs, deadline)
    ensures Next(st, e).files[f].chunks == st.files[f].chunks
  {
    if Obstacle(st, e.session, e.file, e.index, e.data, e.admitted) == None {
      var st' := Next(st, e);
      assert e.file != f && st'.files[f] == st.files[f];
      assert st'.uploads[Ticket(s, f)] == st.uploads[Ticket(s, f)];
      assert forall t | t in st'.uploads :: t in st.uploads;
    }
  }

  lemma OthersSpareFilling(st: State, e: Event, s: SessionId, f: FileId, data: Bytes, cs: nat, deadline: int)
    requires cs > 0 && Filling(st, s, f, data, cs, deadline) && Fair(e, s, f, data, cs, deadline)
    requires !Stores(st, e, f)
    ensures Filling(Next(st, e), s, f, data, cs, deadline)
    ensures Next(st, e).files[f].chunks == st.files[f].chunks
  {
    if e.Chunk? {
      ChunkSparesFilling(st, e, s, f, data, cs, deadline);
    }
  }

  lemma FillingStep(st: State, e: Event, s: SessionId, f: FileId, data: Bytes, cs: nat, deadline: int)
    requires cs > 0 && Filling(st, s, f, data, cs, deadline) && Fair(e, s, f, data, cs, deadline)
    ensures Filling(Next(st, e), s, f, data, cs, deadline)
    ensures st.files[f].chunks.Keys <= Next(st, e).files[f].chunks.Keys
    ensures e.Chunk? && Sends(e, s, f, e.index) && e.index < CeilDiv(|data|, cs) ==>
      e.index in Next(st, e).files[f].chunks
  {
    if Stores(st, e, f) {
      assert Ticket(e.session, f) in st.uploads;
      SliceStored(st, e, s, f, data, cs, deadline);
    } else {
      OthersSpareFilling(st, e, s, f, data, cs, deadline);
      if e.Chunk? && e.index < CeilDiv(|data|, cs) {
        SliceIsNonempty(data, cs, e.index);
      }
    }
  }

  /** Some event of the run sends slice `i`. */
  ghost predicate HasSent(events: seq<Event>, s: SessionId, f: FileId, i: nat) {
    exists j :: 0 <= j < |events| && Sends(events[j], s, f, i)
  }

  lemma {:induction false} FillingRun(st: State, events: seq<Event>, s: SessionId, f: FileId, data: Bytes, cs: nat,
                                      deadline: int)
    requires cs > 0 && Filling(st, s, f, data, cs, deadline)
    requires forall j | 0 <= j < |events| :: Fair(events[j], s, f, data, cs, deadline)
    ensures Filling(Run(st, events), s, f, data, cs, deadline)
    ensures forall i: nat | i < CeilDiv(|data|, cs) && HasSent(events, s, f, i) :: i in Run(st, events).files[f].chunks
    decreases |events|
  {
    if events != [] {
      var n := |events| - 1;
      var before := Run(st, events[..n]);
      FillingRun(st, events[..n], s, f, data, cs, deadline);
      FillingStep(before, events[n], s, f, data, cs, deadline);
      forall i: nat | i < CeilDiv(|data|, cs) && HasSent(events, s, f, i)
        ensures i in Run(st, events).files[f].chunks
      {
        var j :| 0 <= j < |events| && Sends(events[j], s, f, i);
        if j < n {
          assert Sends(events[..n][j], s, f, i);
          assert i in before.files[f].chunks.Keys;
        }
      }
    }
  }

  lemma StartFills(st: State, s: SessionId, f: FileId, data: Bytes, requested: Word, now: int)
    requires Sized(st) && f !in st.files && (forall t | t in st.uploads && t.file == f :: t.session == s)
    requires 0 < |data| <= 104857600
    ensures var started := Next(st, Request(s, f, |data|, requested, now));
      Filling(started, s, f, data, ChunkSizeOf(requested), now + 604800)
  {
    TotalChunksInRange(|data|, requested);
  }

  /** What was put together and scanned is the data; and unless it is a threat, the table holds exactly
      its slices and marks the file complete. */
  ghost predicate Reassembled(st: State, outcome: Outcome, f: FileId, data: Bytes, cs: nat, threat: bool)
    requires cs > 0
  {
    if threat then f !in st.files && outcome == ThreatDetected(data)
    else
      && outcome.Completed? && outcome.scanned == data
      && f in st.files && st.files[f].complete && Holds(st.files[f], data, cs)
  }

  lemma LastFinishes(st: State, s: SessionId, f: FileId, data: Bytes, cs: nat, deadline: int, k: Word, threat: bool)
    requires cs > 0 && Filling(st, s, f, data, cs, deadline) && k < CeilDiv(|data|, cs)
    requires forall i: nat | i < CeilDiv(|data|, cs) && i != k :: i in st.files[f].chunks
    ensures var (st', outcome) := HandleUpload(st, s, f, k, Slice(data, cs, k), true, true, threat);
      Reassembled(st', outcome, f, data, cs, threat)
  {
    SliceIsNonempty(data, cs, k);
    var middle := Received(st, s, f, k, Slice(data, cs, k));
    JoinedIsData(middle.files[f].chunks, data, cs);
  }

  /** Reassembly inverts chunking. A session asks to upload a file, with any chunk size, and then, with
      anything else going on in between, sends every slice of it at least once, in any order, the one
      marked as the last at the end: then the file is reassembled. */
  lemma ReassemblyInvertsChunking(st: State, s: SessionId, f: FileId, data: Bytes, requested: Word, now: int,
                                  events: seq<Event>, k: Word, threat: bool)
    requires Sized(st) && f !in st.files && (forall t | t in st.uploads && t.file == f :: t.session == s)
    requires 0 < |data| <= 104857600
    requires forall j | 0 <= j < |events| :: Fair(events[j], s, f, data, ChunkSizeOf(requested), now + 604800)
    requires k < CeilDiv(|data|, ChunkSizeOf(requested))
    requires forall i: nat | i < CeilDiv(|data|, ChunkSizeOf(requested)) && i != k :: HasSent(events, s, f, i)
    ensures var cs := ChunkSizeOf(requested);
      var (st', outcome) := HandleUpload(Run(Next(st, Request(s, f, |data|, requested, now)), events),
                                         s, f, k, Slice(data, cs, k), true, true, threat);
      Reassembled(st', outcome, f, data, cs, threat)
  {
    var cs, deadline := ChunkSizeOf(requested), now + 604800;
    var started := Next(st, Request(s, f, |data|, requested, now));
    StartFills(st, s, f, data, requested, now);
    FillingRun(started, events, s, f, data, cs, deadline);
    LastFinishes(Run(started, events), s, f, data, cs, deadline, k, threat);
  }

  // ----- Download ------------------------------------------------------------------------------------

  function PayloadOf(sent: seq<FileChunk>): Bytes {
    if sent == [] then [] else PayloadOf(sent[..|sent| - 1]) + sent[|sent| - 1].data
  }

  /** What is served as long as no chunk is missing. */
  lemma {:induction false} ServedChunks(chunks: Chunks, from: nat, total: nat)
    requires forall i | from <= i < total :: i in chunks
    ensures var (sent, ending) := Served(chunks, from, total);
      && ending == Sent
      && |sent| == (if from < total then total - from else 0)
      && forall j | 0 <= j < |sent| :: sent[j] == FileChunk(from + j, chunks[from + j], from + j == total - 1)
    decreases total - from
  {
    if from < total {
      ServedChunks(chunks, from + 1, total);
    }
  }

  predicate Carries(c: FileChunk, chunks: Chunks, i: nat) {
    i in chunks && c.data == chunks[i]
  }

  lemma {:induction false} PayloadIsJoined(sent: seq<FileChunk>, chunks: Chunks, from: nat)
    requires forall j | 0 <= j < |sent| :: Carries(sent[j], chunks, from + j)
    ensures PayloadOf(sent) == Joined(chunks, from, from + |sent|)
    decreases |sent|
  {
    if sent != [] {
      var rest := sent[..|sent| - 1];
      forall j | 0 <= j < |rest| ensures Carries(rest[j], chunks, from + j) {
        assert rest[j] == sent[j];
      }
      PayloadIsJoined(rest, chunks, from);
    }
  }

  /** The 64 KB chunks of the data from chunk `from` on: the bytes from there on, in order, with the mark
      on the final chunk and on no other. */
  ghost predicate InOrder(sent: seq<FileChunk>, data: Bytes, from: nat) {
    var total := CeilDiv(|data|, 65536);
    && |sent| == (if from < total then total - from else 0)
    && (forall j | 0 <= j < |sent| ::
          sent[j] == FileChunk(from + j, Slice(data, 65536, from + j), from + j == total - 1))
    && PayloadOf(sent) == data[Cut(data, 65536, from)..]
  }

  /** A file held in chunks of 64 KB is downloaded from any chunk on, in order. */
  lemma DownloadInOrder(files: Files, f: FileId, data: Bytes, from: Word)
    requires f in files && Holds(files[f], data, 65536)
    ensures var (sent, ending) := HandleDownload(files, f, from);
      ending == Sent && InOrder(sent, data, from)
  {
    var total := CeilDiv(|data|, 65536);
    var chunks := files[f].chunks;
    ServedChunks(chunks, from, total);
    var sent := HandleDownload(files, f, from).0;
    PayloadIsJoined(sent, chunks, from);
    CutEnds(data, 65536);
    if from < total {
      JoinedSlices(chunks, data, 65536, from, total);
      assert data[Cut(data, 65536, from)..|data|] == data[Cut(data, 65536, from)..];
    } else {
      CutsAdvance(data, 65536, total, from);
    }
  }

  // ----- From upload to download ---------------------------------------------------------------------

  /** The file is in the table, slice by slice, and nobody is uploading it. */
  ghost predicate AtRest(st: State, f: FileId, data: Bytes, cs: nat, deadline: int)
    requires cs > 0
  {
    && Sized(st) && !IsOpen(st, f)
    && f in st.files && st.files[f].expiresAt == deadline && Holds(st.files[f], data, cs)
  }

  lemma RestStays(st: State, e: Event, f: FileId, data: Bytes, cs: nat, deadline: int)
    requires cs > 0 && AtRest(st, f, data, cs, deadline) && (e.Cleanup? ==> e.at < deadline)
    ensures AtRest(Next(st, e), f, data, cs, deadline)
  {
    var st' := Next(st, e);
    assert !Stores(st, e, f);
    RestSpares(st, e, f);
    assert st'.files[f] == st.files[f];
    assert forall t | t in st'.uploads && t.file == f :: t in st.uploads;
  }

  /** A complete file outlasts every run without a cleanup at or after its deadline. */
  lemma {:induction false} RestLasts(st: State, events: seq<Event>, f: FileId, data: Bytes, cs: nat, deadline: int)
    requires cs > 0 && AtRest(st, f, data, cs, deadline)
    requires forall j | 0 <= j < |events| :: events[j].Cleanup? ==> events[j].at < deadline
    ensures AtRest(Run(st, events), f, data, cs, deadline)
    decreases |events|
  {
    if events != [] {
      var n := |events| - 1;
      RestLasts(st, events[..n], f, data, cs, deadline);
      RestStays(Run(st, events[..n]), events[n], f, data, cs, deadline);
    }
  }

  lemma LastComesToRest(st: State, s: SessionId, f: FileId, data: Bytes, cs: nat, deadline: int, k: Word)
    requires cs > 0 && Filling(st, s, f, data, cs, deadline) && k < CeilDiv(|data|, cs)
    requires forall i: nat | i < CeilDiv(|data|, cs) && i != k :: i in st.files[f].chunks
    ensures AtRest(Next(st, Chunk(s, f, k, Slice(data, cs, k), true, true, false)), f, data, cs, deadline)
  {
    LastFinishes(st, s, f, data, cs, deadline, k, false);
    SliceIsNonempty(data, cs, k);
    var st' := Next(st, Chunk(s, f, k, Slice(data, cs, k), true, true, false));
    assert st'.uploads.Keys == st.uploads.Keys - {Ticket(s, f)};
  }

  /** From end to end: a session uploads a file in slices of 64 KB, in any order and with any repetition,
      the marked one last; then anything happens, short of a cleanup after the deadline; then a download
      from chunk `k` gives exactly the bytes from there on, in order, the mark on the final chunk only. */
  lemma UploadThenDownload(st: State, s: SessionId, f: FileId, data: Bytes, now: int,
                           events: seq<Event>, last: Word, later: seq<Event>, k: Word)
    requires Sized(st) && f !in st.files && (forall t | t in st.uploads && t.file == f :: t.session == s)
    requires 0 < |data| <= 104857600 && last < CeilDiv(|data|, 65536)
    requires forall j | 0 <= j < |events| :: Fair(events[j], s, f, data, 65536, now + 604800)
    requires forall i: nat | i < CeilDiv(|data|, 65536) && i != last :: HasSent(events, s, f, i)
    requires forall j | 0 <= j < |later| :: later[j].Cleanup? ==> later[j].at < now + 604800
    ensures var uploaded := Run(Next(st, Request(s, f, |data|, 65536, now)), events);
      var complete := Next(uploaded, Chunk(s, f, last, Slice(data, 65536, last), true, true, false));
      var (sent, ending) := HandleDownload(Run(complete, later).files, f, k);
      ending == Sent && InOrder(sent, data, k)
  {
    var deadline := now + 604800;
    var started := Next(st, Request(s, f, |data|, 65536, now));
    StartFills(st, s, f, data, 65536, now);
    FillingRun(started, events, s, f, data, 65536, deadline);
    LastComesToRest(Run(started, events), s, f, data, 65536, deadline, last);
    var complete := Next(Run(started, events), Chunk(s, f, last, Slice(data, 65536, last), true, true, false));
    RestLasts(complete, later, f, data, 65536, deadline);
    DownloadInOrder(Run(complete, later).files, f, data, k);
  }

  lemma {:induction false} ServedUntilMissing(chunks: Chunks, from: nat, total: nat, count: nat)
    requires forall i: nat :: i in chunks <==> i < count
    requires from <= count < total
    ensures Served(chunks, from, total).1 == ChunkNotFound(count)
    decreases count - from
  {
    if from < count {
      ServedUntilMissing(chunks, from + 1, total, count);
    }
  }

  /** The first `total` slices, served one after the other. */
  lemma ServedSlices(chunks: Chunks, data: Bytes, cs: nat, total: nat)
    requires cs > 0 && AreSlices(chunks, data, cs) && forall i: nat | i < total :: i in chunks
    ensures Served(chunks, 0, total).1 == Sent
    ensures PayloadOf(Served(chunks, 0, total).0) == data[..Cut(data, cs, total)]
  {
    ServedChunks(chunks, 0, total);
    PayloadIsJoined(Served(chunks, 0, total).0, chunks, 0);
    JoinedSlices(chunks, data, cs, 0, total);
  }

  lemma CutBeforeEnd(data: Bytes, cs: nat, total: nat)
    requires cs > 0 && total < CeilDiv(|data|, cs)
    ensures Cut(data, cs, total) < |data|
  {
    assert total * cs <= (CeilDiv(|data|, cs) - 1) * cs;
  }

  /** For any other chunk size, a download of the whole file succeeds, and gives the file, exactly when
      the file happens to have as many chunks as it would have at 64 KB. */
  lemma DownloadWholeIff(files: Files, f: FileId, data: Bytes, cs: nat)
    requires cs > 0 && f in files && Holds(files[f], data, cs)
    ensures var (sent, ending) := HandleDownload(files, f, 0);
      (ending == Sent && PayloadOf(sent) == data) <==> CeilDiv(|data|, cs) == CeilDiv(|data|, 65536)
  {
    var count, total := CeilDiv(|data|, cs), CeilDiv(|data|, 65536);
    var chunks := files[f].chunks;
    if count < total {
      ServedUntilMissing(chunks, 0, total, count);
    } else {
      ServedSlices(chunks, data, cs, total);
      if total < count {
        CutBeforeEnd(data, cs, total);
      } else {
        CutEnds(data, cs);
        assert data[..|data|] == data;
      }
    }
  }

  lemma TwoSmallChunks(data: Bytes)
    requires |data| == 2
    ensures CeilDiv(|data|, 1) == 2 && CeilDiv(|data|, 65536) == 1
    ensures Slice(data, 1, 0) == data[..1] && Slice(data, 1, 1) == data[1..]
  {
    assert data[1..2] == data[1..];
  }

  lemma SmallChunksServed(files: Files, f: FileId, data: Bytes)
    requires |data| == 2 && f in files && Holds(files[f], data, 1)
    ensures HandleDownload(files, f, 0) == ([FileChunk(0, data[..1], true)], Sent)
  {
    TwoSmallChunks(data);
    var chunks := files[f].chunks;
    assert 0 in chunks && chunks[0] == Slice(data, 1, 0);
    var total := CeilDiv(|data|, DEFAULT_CHUNK_SIZE);
    var only := FileChunk(0, chunks[0], 0 == total - 1);
    assert Served(chunks, 1, total) == ([], Sent);
    assert Served(chunks, 0, total) == ([only] + [], Sent);
    assert [only] + [] == [only];
  }

  /** A run in which it does not: of two bytes uploaded in chunks of one byte, the download gives the
      first, marked as the last. */
  lemma SmallChunksCutDownload(f: FileId, data: Bytes)
    requires |data| == 2
    ensures var started := Next(EMPTY_STATE, Request(1, f, |data|, 1, 0));
      var st := HandleUpload(Run(started, [Chunk(1, f, 0, data[..1], false, true, false)]),
                             1, f, 1, data[1..], true, true, false).0;
      && f in st.files && st.files[f].complete
      && HandleDownload(st.files, f, 0) == ([FileChunk(0, data[..1], true)], Sent)
  {
    TwoSmallChunks(data);
    var events := [Chunk(1, f, 0, data[..1], false, true, false)];
    assert Sends(events[0], 1, f, 0);
    ReassemblyInvertsChunking(EMPTY_STATE, 1, f, data, 1, 0, events, 1, false);
    var started := Next(EMPTY_STATE, Request(1, f, |data|, 1, 0));
    var st := HandleUpload(Run(started, events), 1, f, 1, data[1..], true, true, false).0;
    SmallChunksServed(st.files, f, data);
  }
}
