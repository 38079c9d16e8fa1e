/**
 A file upload end to end: the chunker in bambu-farm-client/src/api.rs and the reassembly in
 bambu-farm-server/src/main.rs, under any schedule of short and failing reads.
 */
module Upload {
  import opened Wrappers
  import opened Arithmetic

  const CHUNK_SIZE: nat := 256 * 1024

  datatype Chunk = Chunk(devId: string, remotePath: string, blob: seq<Byte>)

  /** One read of the local file: it may return up to `1 + extra` bytes, or fail. */
  datatype Turn = Data(extra: nat) | Broken

  /** How the client's stream ends; `Waiting` when the schedule ends first. */
  datatype End = Whole | Failed | Waiting

  datatype Outcome =
    | Assembled(devId: string, remotePath: string, bytes: seq<Byte>, total: nat)
    | MetadataChanged
    | Empty

  function Bytes(chunks: seq<Chunk>): seq<Byte> {
    if chunks == [] then [] else Bytes(chunks[..|chunks| - 1]) + chunks[|chunks| - 1].blob
  }

  lemma BytesSnoc(chunks: seq<Chunk>, c: Chunk)
    ensures Bytes(chunks + [c]) == Bytes(chunks) + c.blob
  {
    assert (chunks + [c])[..|chunks|] == chunks;
  }

  /** The chunks carry the metadata of one upload and between one byte and 256 KiB each. */
  predicate FromClient(chunks: seq<Chunk>, devId: string, remotePath: string) {
    forall i | 0 <= i < |chunks| ::
      chunks[i].devId == devId && chunks[i].remotePath == remotePath && 0 < |chunks[i].blob| <= CHUNK_SIZE
  }

  lemma ClientSnoc(chunks: seq<Chunk>, c: Chunk)
    requires FromClient(chunks, c.devId, c.remotePath) && 0 < |c.blob| <= CHUNK_SIZE
    ensures FromClient(chunks + [c], c.devId, c.remotePath)
  {
  }

  /** How many bytes the reads before the first failing one can deliver. */
  function Got(turns: seq<Turn>): nat {
    if turns == [] || turns[0].Broken? then 0 else Least(1 + turns[0].extra, CHUNK_SIZE) + Got(turns[1..])
  }

  /** A read hands over as much as it can get, up to 256 KiB. */
  lemma ReadSize(extra: nat)
    ensures Got([Data(extra)]) == if extra < 262144 then extra + 1 else 262144
  {
    assert [Data(extra)][1..] == [];
  }

  lemma ReadOn(turns: seq<Turn>, size: nat)
    ensures size == 0 || turns == [] || turns[0].Broken? ==> Least(Got(turns), size) == 0
    ensures turns != [] && turns[0].Data? ==>
              var n := Least(Least(1 + turns[0].extra, CHUNK_SIZE), size);
              n <= size && (0 < size ==> 0 < n <= CHUNK_SIZE) && Least(Got(turns), size) == n + Least(Got(turns[1..]), size - n)
  {
  }

  /** The `stream::unfold` of `bambu_network_rs_upload_file`. */
  method ClientChunks(file: seq<Byte>, devId: string, remotePath: string, turns: seq<Turn>)
    returns (chunks: seq<Chunk>, end: End)
    ensures FromClient(chunks, devId, remotePath)
    ensures forall c | c in chunks :: c.devId == devId && c.remotePath == remotePath && 0 < |c.blob| <= 262144
    ensures Bytes(chunks) <= file
    ensures |Bytes(chunks)| == Least(Got(turns), |file|)
    ensures end.Whole? ==> Bytes(chunks) == file
    ensures end.Failed? ==> Broken in turns
    ensures end.Waiting? ==> |turns| <= |file|
  {
    chunks := [];
    assert Bytes([]) == [] && FromClient([], devId, remotePath);
    hide Bytes, Got, Least;
    var rest, left := file, turns;
    while true
      invariant FromClient(chunks, devId, remotePath)
      invariant Bytes(chunks) + rest == file
      invariant |left| <= |turns| && (Broken in left ==> Broken in turns)
      invariant |turns| - |left| <= |file| - |rest|
      invariant Least(Got(turns), |file|) == |Bytes(chunks)| + Least(Got(left), |rest|)
      decreases |left|
    {
      ReadOn(left, |rest|);
      SentSoFar(Bytes(chunks), rest, file);
      if left == [] {
        return chunks, Waiting;
      }
      var turn := left[0];
      DropFirst(left);
      left := left[1..];
      if turn.Broken? {
        return chunks, Failed;
      }
      if rest == [] {
        return chunks, Whole;
      }
      var n := Least(Least(1 + turn.extra, CHUNK_SIZE), |rest|);
      BytesSnoc(chunks, Chunk(devId, remotePath, rest[..n]));
      ClientSnoc(chunks, Chunk(devId, remotePath, rest[..n]));
      MoveOver(Bytes(chunks), rest, n);
      chunks, rest := chunks + [Chunk(devId, remotePath, rest[..n])], rest[n..];
    }
  }

  lemma DropFirst(turns: seq<Turn>)
    requires turns != []
    ensures Broken in turns[1..] ==> Broken in turns
    ensures turns[0].Broken? ==> Broken in turns
  {
  }

  lemma SentSoFar(sent: seq<Byte>, rest: seq<Byte>, file: seq<Byte>)
    requires sent + rest == file
    ensures sent <= file && |sent| + |rest| == |file| && (rest == [] ==> sent == file)
  {
  }

  lemma MoveOver(sent: seq<Byte>, rest: seq<Byte>, n: nat)
    requires n <= |rest|
    ensures sent + rest[..n] + rest[n..] == sent + rest
  {
  }

  predicate SameMetadata(chunks: seq<Chunk>) {
    forall i | 0 <= i < |chunks| :: chunks[i].devId == chunks[0].devId && chunks[i].remotePath == chunks[0].remotePath
  }

  lemma SameSnoc(chunks: seq<Chunk>, n: nat)
    requires n < |chunks| && SameMetadata(chunks[..n])
    ensures SameMetadata(chunks) ==> SameMetadata(chunks[..n + 1])
    ensures SameMetadata(chunks[..n + 1]) <==> n == 0 || (chunks[n].devId == chunks[0].devId && chunks[n].remotePath == chunks[0].remotePath)
  {
    assert forall i | 0 <= i < n :: chunks[..n + 1][i] == chunks[..n][i] == chunks[i];
    assert chunks[..n + 1][n] == chunks[n];
  }

  /**
   `upload_file_stream` up to the hand-over: accepted exactly when there is a chunk and all agree on
   their metadata, and then the bytes are those of all chunks, counted.
   */
  method AssembleUpload(chunks: seq<Chunk>) returns (outcome: Outcome)
    ensures outcome == if chunks == [] then Empty
                       else if exists c | c in chunks :: c.devId != chunks[0].devId || c.remotePath != chunks[0].remotePath
                       then MetadataChanged
                       else Assembled(chunks[0].devId, chunks[0].remotePath, Bytes(chunks), |Bytes(chunks)|)
  {
    assert SameMetadata(chunks[..0]) && Bytes(chunks[..0]) == [];
    hide SameMetadata, Bytes;
    var devId: Option<string> := None;
    var remotePath: Option<string> := None;
    var total := 0;
    var temp := [];
    for n := 0 to |chunks|
      invariant SameMetadata(chunks[..n])
      invariant devId == (if n == 0 then None else Some(chunks[0].devId))
      invariant remotePath == (if n == 0 then None else Some(chunks[0].remotePath))
      invariant temp == Bytes(chunks[..n]) && total == |temp|
    {
      var chunk := chunks[n];
      SameSnoc(chunks, n);
      if devId.None? {
        devId, remotePath := Some(chunk.devId), Some(chunk.remotePath);
      } else if devId != Some(chunk.devId) || remotePath != Some(chunk.remotePath) {
        return MetadataChanged;
      }
      assert chunks[..n + 1] == chunks[..n] + [chunk];
      BytesSnoc(chunks[..n], chunk);
      temp, total := temp + chunk.blob, total + |chunk.blob|;
    }
    assert chunks[..|chunks|] == chunks;
    if devId.None? || remotePath.None? {
      return Empty;
    }
    return Assembled(devId.value, remotePath.value, temp, total);
  }

  /**
   A whole upload.  The metadata check never rejects this client's chunks.  The server assembles the
   file up to where the reads got before the first failing one: all of it exactly when they reach
   its end, and otherwise a shorter file that is accepted as well, unless nothing was read at all.
   */
  method Transfer(file: seq<Byte>, devId: string, remotePath: string, turns: seq<Turn>)
    returns (end: End, outcome: Outcome)
    ensures var n := Least(Got(turns), |file|);
            outcome == if n == 0 then Empty else Assembled(devId, remotePath, file[..n], n)
    ensures outcome.Assembled? && outcome.bytes == file <==> file != [] && Got(turns) >= |file|
    ensures end.Whole? ==> Got(turns) >= |file|
    ensures end.Failed? ==> Broken in turns
    ensures Broken !in turns && |turns| > |file| ==> end.Whole?
  {
    var chunks;
    chunks, end := ClientChunks(file, devId, remotePath, turns);
    outcome := AssembleUpload(chunks);
    ClientAgrees(chunks, devId, remotePath);
  }

  /** This client's chunks agree on their metadata, and together hold something when there is one. */
  lemma ClientAgrees(chunks: seq<Chunk>, devId: string, remotePath: string)
    requires FromClient(chunks, devId, remotePath)
    ensures SameMetadata(chunks)
    ensures chunks == [] <==> Bytes(chunks) == []
  {
  }

  /**
   A read that fails half-way shortens the upload and nothing reports it: for every file longer than
   one byte there is a schedule with a failing read whose shorter file the server accepts.
   */
  method CutShort(file: seq<Byte>, devId: string, remotePath: string) returns (turns: seq<Turn>, outcome: Outcome)
    requires |file| > 1
    ensures Broken in turns && Got(turns) == 1
    ensures outcome == Assembled(devId, remotePath, file[..1], 1) && outcome.bytes != file
  {
    turns := [Data(0), Broken];
    assert turns[1..] == [Broken];
    var end;
    end, outcome := Transfer(file, devId, remotePath, turns);
  }
}
