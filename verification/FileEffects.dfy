/** What each message of a file transfer does: when it is accepted, what it is answered, and what is different
    afterwards in the file table and in the uploads, spelled out in the states before and after. */
module FileEffects {
  import opened Base
  import opened FileTransfers

  /** Only this file and this upload may differ. */
  ghost predicate OnlyFile(st: State, st': State, t: Ticket) {
    && (forall f | f != t.file :: f in st'.files <==> f in st.files)
    && (forall f | f != t.file && f in st.files :: st'.files[f] == st.files[f])
    && (forall t' | t' != t :: t' in st'.uploads <==> t' in st.uploads)
    && (forall t' | t' != t && t' in st.uploads :: st'.uploads[t'] == st.uploads[t'])
  }

  /** Whether bit `i` of the upload is set, if there is one. */
  predicate Bit(st: State, t: Ticket, i: nat) {
    t in st.uploads && i < |st.uploads[t].received| && st.uploads[t].received[i]
  }

  /** A request is accepted exactly if the size is between one byte and 100 MB and the id is new. Then there
      is an empty file that expires after a week, and an upload with one bit for each chunk. */
  lemma RequestEffect(st: State, s: SessionId, f: FileId, size: Long, requested: Word, now: int)
    ensures var (st', outcome) := HandleRequest(st, s, f, size, requested, now);
      var t, cs := Ticket(s, f), if requested > 0 then requested as nat else 65536;
      && (outcome == Uploading(0) <==> 0 < size <= 104857600 && f !in st.files)
      && (outcome != Uploading(0) ==>
            && st' == st
            && outcome == if size == 0 then EmptyFile else if size > 104857600 then TooLarge else CreateFailed)
      && (outcome == Uploading(0) ==>
            && OnlyFile(st, st', t) && t in st'.uploads
            && f in st'.files && st'.files[f] == File(size, now + 604800, false, map[])
            && st'.uploads[t].fileSize == size && st'.uploads[t].chunkSize == cs
            && st'.uploads[t].totalChunks == CeilDiv(size, cs) == |st'.uploads[t].received|
            && st'.uploads[t].bytesReceived == 0
            && forall i: nat | i < CeilDiv(size, cs) :: Bit(st', t, i) <==> Bit(st, t, i))
  {
    if 0 < size <= 104857600 {
      TotalChunksInRange(size, requested);
    }
  }

  /** Why a chunk is not stored. */
  function Refusal(st: State, t: Ticket, i: nat, data: Bytes, admitted: bool): Option<Outcome> {
    if !admitted then Some(RateLimited)
    else if t !in st.uploads then Some(NotStarted)
    else if i >= st.uploads[t].totalChunks then Some(InvalidIndex)
    else if t.file !in st.files || data == [] then Some(StoreFailed)
    else None
  }

  /** The file row with chunk `i` stored in it. */
  ghost predicate Gained(file: File, file': File, i: nat, data: Bytes) {
    && file'.size == file.size && file'.expiresAt == file.expiresAt
    && i in file'.chunks && file'.chunks[i] == data
    && (forall j | j != i :: j in file'.chunks <==> j in file.chunks)
    && (forall j | j != i && j in file.chunks :: file'.chunks[j] == file.chunks[j])
  }

  ghost predicate Counted(u: Upload, u': Upload, i: nat, data: Bytes) {
    && u'.fileSize == u.fileSize && u'.chunkSize == u.chunkSize && u'.totalChunks == u.totalChunks
    && u'.bytesReceived == u.bytesReceived + |data|
    && |u'.received| == |u.received|
    && forall j | 0 <= j < |u.received| :: u'.received[j] == (j == i || u.received[j])
  }

  /** A refused chunk changes nothing, and is answered with the first of the reasons there are; a stored one
      is in the table, its bit is set and its bytes are counted, and the answer is the count so far. */
  lemma ChunkEffect(st: State, s: SessionId, f: FileId, i: Word, data: Bytes, admitted: bool, threat: bool)
    requires Sized(st)
    ensures var (st', outcome) := HandleUpload(st, s, f, i, data, false, admitted, threat);
      var t := Ticket(s, f);
      match Refusal(st, t, i, data, admitted)
      case Some(reason) => st' == st && outcome == reason
      case None =>
        && OnlyFile(st, st', t) && f in st'.files && t in st'.uploads
        && Gained(st.files[f], st'.files[f], i, data) && st'.files[f].complete == st.files[f].complete
        && Counted(st.uploads[t], st'.uploads[t], i, data)
        && outcome == Uploading(st'.uploads[t].bytesReceived)
  {
  }

  /** The chunk marked as the last is refused for the same reasons. Stored, it ends the upload: what is put
      together is the stored chunks in order; a threat takes the file away, and otherwise it is complete. */
  lemma LastChunkEffect(st: State, s: SessionId, f: FileId, i: Word, data: Bytes, admitted: bool, threat: bool)
    requires Sized(st)
    ensures var (st', outcome) := HandleUpload(st, s, f, i, data, true, admitted, threat);
      var t := Ticket(s, f);
      match Refusal(st, t, i, data, admitted)
      case Some(reason) => st' == st && outcome == reason
      case None =>
        && OnlyFile(st, st', t) && t !in st'.uploads
        && var scanned := Joined(st.files[f].chunks[i as nat := data], 0, st.uploads[t].totalChunks);
        if threat then f !in st'.files && outcome == ThreatDetected(scanned)
        else
          && f in st'.files && Gained(st.files[f], st'.files[f], i, data) && st'.files[f].complete
          && outcome == Completed(st.uploads[t].bytesReceived + |data|, scanned)
  {
  }

  /** A session that closes takes its own uploads with it, and nothing else. */
  lemma CloseEffect(st: State, s: SessionId)
    ensures var st' := Close(st, s);
      && st'.files == st.files
      && (forall t :: t in st'.uploads <==> t in st.uploads && t.session != s)
      && (forall t | t in st'.uploads :: st'.uploads[t] == st.uploads[t])
  {
  }

  /** A cleanup takes away exactly the files whose deadline has come, and no upload. */
  lemma CleanupEffect(st: State, now: int)
    requires Sized(st)
    ensures var st' := Next(st, Cleanup(now));
      && (forall f :: f in st'.files <==> f in st.files && now < st.files[f].expiresAt)
      && (forall f | f in st'.files :: st'.files[f] == st.files[f])
      && st'.uploads == st.uploads
  {
  }

  predicate IsChunk(c: FileChunk, chunks: Chunks, i: nat, total: nat) {
    i in chunks && c == FileChunk(i, chunks[i], i == total - 1)
  }

  /** Chunk after chunk as it is in the table, the mark on the final one. */
  ghost predicate InTurn(sent: seq<FileChunk>, chunks: Chunks, from: nat, total: nat) {
    forall j | 0 <= j < |sent| :: IsChunk(sent[j], chunks, from + j, total)
  }

  /** Where the run of chunks from `from` on ends: at the first that is missing, or at `total`. */
  ghost predicate EndsAt(chunks: Chunks, from: nat, total: nat, end: nat) {
    && from <= end
    && (forall i | from <= i < end :: i in chunks)
    && (if end < total then end !in chunks else end == total || end == from)
  }

  lemma {:induction false} ServedEffect(chunks: Chunks, from: nat, total: nat)
    ensures var (sent, ending) := Served(chunks, from, total);
      && InTurn(sent, chunks, from, total)
      && EndsAt(chunks, from, total, from + |sent|)
      && ending == if from + |sent| < total then ChunkNotFound(from + |sent|) else Sent
    decreases total - from
  {
    if from < total && from in chunks {
      ServedEffect(chunks, from + 1, total);
      ServedOneMore(chunks, from, total);
    }
  }

  lemma ServedOneMore(chunks: Chunks, from: nat, total: nat)
    requires from < total && from in chunks && InTurn(Served(chunks, from + 1, total).0, chunks, from + 1, total)
    ensures InTurn(Served(chunks, from, total).0, chunks, from, total)
  {
    var more := Served(chunks, from + 1, total).0;
    var sent := Served(chunks, from, total).0;
    forall j | 0 <= j < |sent| ensures IsChunk(sent[j], chunks, from + j, total) {
      if j > 0 {
        assert IsChunk(more[j - 1], chunks, from + 1 + (j - 1), total);
      }
    }
  }

  /** A download of an unknown file sends nothing; any other sends the chunks in the table from the one asked
      for on, in turn, and stops with the first that is missing, or else after the number of chunks that the
      file would have at 64 KB. */
  lemma DownloadEffect(files: Files, f: FileId, from: Word)
    ensures var (sent, ending) := HandleDownload(files, f, from);
      if f !in files then sent == [] && ending == FileNotFound
      else
        var total := CeilDiv(files[f].size, 65536);
        && InTurn(sent, files[f].chunks, from, total)
        && EndsAt(files[f].chunks, from, total, from + |sent|)
        && ending == if from + |sent| < total then ChunkNotFound(from + |sent|) else Sent
  {
    if f in files {
      ServedEffect(files[f].chunks, from, CeilDiv(files[f].size, 65536));
    }
  }
}
