/** The chunked uploads of `routes/projectsHandlers.ts` and `routes/profileHandlers.ts`, which follow one protocol.
    `Meta` is what every chunk must repeat (slug and file name; or the file name), `Extra` is what the first chunk alone
    decides (nothing; or the pin and the note). */
module ChunkedUpload {
  import opened Basics

  newtype Byte = b: int | 0 <= b < 256

  const MAX_TOTAL_BYTES: nat := 100 * 1024 * 1024

  datatype Payload<Meta, Extra> = Payload(
    uploadId: string,
    meta: Meta,
    extra: Extra,
    chunkIndex: nat,
    totalChunks: nat,
    totalBytes: nat,
    sha256: string,
    chunk: seq<Byte>)

  datatype Session<Meta, Extra> = Session(
    meta: Meta,
    extra: Extra,
    totalChunks: nat,
    totalBytes: nat,
    expectedSha256: string,
    chunks: seq<seq<Byte>>,
    nextChunkIndex: nat,
    receivedBytes: nat)

  datatype Error =
    | TooLarge
    | UnknownUpload
    | MetadataMismatch
    | IndexMismatch
    | Overflow
    | SizeMismatch
    | HashMismatch

  datatype Outcome<Meta, Extra> =
    | Accepted(nextChunkIndex: nat)
    | Committed(meta: Meta, extra: Extra, bytes: seq<Byte>)
    | Rejected(error: Error)

  function Concat(chunks: seq<seq<Byte>>): seq<Byte> {
    if chunks == [] then [] else Concat(chunks[..|chunks| - 1]) + chunks[|chunks| - 1]
  }

  /** The session a chunk is for: chunk 0 of an unknown upload opens one. */
  function Find<Meta, Extra>(sessions: map<string, Session<Meta, Extra>>,
                             p: Payload<Meta, Extra>): Option<Session<Meta, Extra>> {
    if p.uploadId in sessions then Some(sessions[p.uploadId])
    else if p.chunkIndex == 0 then Some(Session(p.meta, p.extra, p.totalChunks, p.totalBytes, p.sha256, [], 0, 0))
    else None
  }

  datatype Result<Meta, Extra> = Result(sessions: map<string, Session<Meta, Extra>>, outcome: Outcome<Meta, Extra>)

  ghost function Receive<Meta, Extra>(hash: seq<Byte> -> string, sessions: map<string, Session<Meta, Extra>>,
                                      p: Payload<Meta, Extra>)
    : Result<Meta, Extra>
  {
    var found := Find(sessions, p);
    if p.totalBytes > MAX_TOTAL_BYTES then Result(sessions, Rejected(TooLarge))
    else if found.None? then Result(sessions, Rejected(UnknownUpload))
    else
      var s := found.value;
      if s.meta != p.meta || s.totalChunks != p.totalChunks then Result(sessions, Rejected(MetadataMismatch))
      else if p.chunkIndex != s.nextChunkIndex then Result(sessions, Rejected(IndexMismatch))
      else
        var received := s.receivedBytes + |p.chunk|;
        var grown := s.(chunks := s.chunks + [p.chunk], nextChunkIndex := s.nextChunkIndex + 1,
                        receivedBytes := received);
        if received > s.totalBytes then Result(sessions - {p.uploadId}, Rejected(Overflow))
        else if grown.nextChunkIndex < s.totalChunks then
          Result(sessions[p.uploadId := grown], Accepted(grown.nextChunkIndex))
        else
          var full := Concat(grown.chunks);
          Result(sessions - {p.uploadId},
                 if |full| != s.totalBytes then Rejected(SizeMismatch)
                 else if hash(full) != s.expectedSha256 then Rejected(HashMismatch)
                 else Committed(s.meta, s.extra, full))
  }

  class UploadHandler<Meta(==), Extra> {
    const hash: seq<Byte> -> string
    var uploadSessions: map<string, Session<Meta, Extra>>

    constructor (hash: seq<Byte> -> string)
      ensures this.hash == hash && uploadSessions == map[]
    {
      this.hash := hash;
      uploadSessions := map[];
    }

    method UploadDocumentChunk(p: Payload<Meta, Extra>) returns (outcome: Outcome<Meta, Extra>)
      modifies this
      ensures Result(uploadSessions, outcome) == Receive(hash, old(uploadSessions), p)
    {
      if p.totalBytes > MAX_TOTAL_BYTES {
        return Rejected(TooLarge);
      }
      if p.chunkIndex == 0 && p.uploadId !in uploadSessions {
        uploadSessions := uploadSessions[p.uploadId :=
          Session(p.meta, p.extra, p.totalChunks, p.totalBytes, p.sha256, [], 0, 0)];
      }
      if p.uploadId !in uploadSessions {
        return Rejected(UnknownUpload);
      }
      var session := uploadSessions[p.uploadId];
      if session.meta != p.meta || session.totalChunks != p.totalChunks {
        return Rejected(MetadataMismatch);
      }
      if p.chunkIndex != session.nextChunkIndex {
        return Rejected(IndexMismatch);
      }
      session := session.(receivedBytes := session.receivedBytes + |p.chunk|);
      if session.receivedBytes > session.totalBytes {
        uploadSessions := uploadSessions - {p.uploadId};
        assert uploadSessions == old(uploadSessions) - {p.uploadId};
        return Rejected(Overflow);
      }
      session := session.(chunks := session.chunks + [p.chunk], nextChunkIndex := session.nextChunkIndex + 1);
      uploadSessions := uploadSessions[p.uploadId := session];
      if session.nextChunkIndex < session.totalChunks {
        assert uploadSessions == old(uploadSessions)[p.uploadId := session];
        return Accepted(session.nextChunkIndex);
      }
      uploadSessions := uploadSessions - {p.uploadId};
      assert uploadSessions == old(uploadSessions) - {p.uploadId};
      var full := ConcatChunks(session.chunks);
      if |full| != session.totalBytes {
        return Rejected(SizeMismatch);
      }
      if hash(full) != session.expectedSha256 {
        return Rejected(HashMismatch);
      }
      return Committed(session.meta, session.extra, full);
    }
  }

  /** `Buffer.concat`. */
  method ConcatChunks(chunks: seq<seq<Byte>>) returns (full: seq<Byte>)
    ensures full == Concat(chunks)
  {
    full := [];
    for i := 0 to |chunks|
      invariant full == Concat(chunks[..i])
    {
      assert chunks[..i + 1][..i] == chunks[..i];
      full := full + chunks[i];
    }
    assert chunks[..|chunks|] == chunks;
  }

  // ---- What every stored session keeps -------------------------------------

  ghost predicate SessionValid<Meta, Extra>(s: Session<Meta, Extra>) {
    && s.nextChunkIndex == |s.chunks| < s.totalChunks
    && s.receivedBytes == |Concat(s.chunks)| <= s.totalBytes <= MAX_TOTAL_BYTES
  }

  ghost predicate Valid<Meta, Extra>(sessions: map<string, Session<Meta, Extra>>) {
    forall id :: id in sessions ==> SessionValid(sessions[id])
  }

  lemma ConcatPush(chunks: seq<seq<Byte>>, chunk: seq<Byte>)
    ensures Concat(chunks + [chunk]) == Concat(chunks) + chunk
  {
    assert (chunks + [chunk])[..|chunks|] == chunks;
  }

  lemma NothingReceived()
    ensures Concat([]) == []
  {
  }

  /** The byte accounting of every stored session, kept by every call whatever it carries. */
  lemma ReceiveKeepsValid<Meta, Extra>(hash: seq<Byte> -> string, sessions: map<string, Session<Meta, Extra>>,
                                       p: Payload<Meta, Extra>)
    requires Valid(sessions)
    ensures Valid(Receive(hash, sessions, p).sessions)
  {
    hide Concat;
    var found, after := Find(sessions, p), Receive(hash, sessions, p).sessions;
    if found.Some? {
      ConcatPush(found.value.chunks, p.chunk);
    }
    NothingReceived();
    forall id | id in after ensures SessionValid(after[id]) {
      if id != p.uploadId {
        OtherUploadsUntouched(hash, sessions, p, id);
      }
    }
  }

  /** A call touches no session but the one of its upload id. */
  lemma OtherUploadsUntouched<Meta, Extra>(hash: seq<Byte> -> string, sessions: map<string, Session<Meta, Extra>>,
                                               p: Payload<Meta, Extra>, id: string)
    requires id != p.uploadId
    ensures var after := Receive(hash, sessions, p).sessions;
            (id in after <==> id in sessions) && (id in sessions ==> after[id] == sessions[id])
  {
  }

  /** A refusal that leaves the upload as it was. */
  predicate IsHarmless<Meta, Extra>(outcome: Outcome<Meta, Extra>) {
    outcome.Rejected? && outcome.error in {TooLarge, UnknownUpload, MetadataMismatch, IndexMismatch}
  }

  /** After a refusal the upload is either exactly as it was, or gone. */
  lemma RefusalsKeepOrDrop<Meta, Extra>(hash: seq<Byte> -> string, sessions: map<string, Session<Meta, Extra>>,
                                        p: Payload<Meta, Extra>)
    requires Receive(hash, sessions, p).outcome.Rejected?
    ensures var r := Receive(hash, sessions, p);
            if IsHarmless(r.outcome) then r.sessions == sessions else p.uploadId !in r.sessions
  {
  }

  // ---- The round trip ------------------------------------------------------

  /** What is uploaded: the parts, and what its first chunk says. */
  datatype Upload<Meta, Extra> = Upload(id: string, meta: Meta, extra: Extra, parts: seq<seq<Byte>>)

  /** The call that carries part `i`. Totals and hash count on the first chunk alone. */
  ghost predicate Carries<Meta, Extra>(hash: seq<Byte> -> string, u: Upload<Meta, Extra>, i: nat,
                                       p: Payload<Meta, Extra>)
    requires i < |u.parts|
  {
    && p.uploadId == u.id && p.meta == u.meta
    && p.chunkIndex == i && p.totalChunks == |u.parts| && p.chunk == u.parts[i]
    && p.totalBytes <= MAX_TOTAL_BYTES
    && (i == 0 ==> p.extra == u.extra && p.totalBytes == |Concat(u.parts)| && p.sha256 == hash(Concat(u.parts)))
  }

  /** The calls carry the parts from `i` on, in order; between them are calls for other uploads, and calls for this one
      that are refused harmlessly. */
  ghost predicate Interleaves<Meta, Extra>(hash: seq<Byte> -> string, sessions: map<string, Session<Meta, Extra>>,
                                                   u: Upload<Meta, Extra>, i: nat, calls: seq<Payload<Meta, Extra>>)
    requires i <= |u.parts|
    decreases |calls|
  {
    if calls == [] then i == |u.parts|
    else
      var r := Receive(hash, sessions, calls[0]);
      if i < |u.parts| && Carries(hash, u, i, calls[0]) then Interleaves(hash, r.sessions, u, i + 1, calls[1..])
      else (calls[0].uploadId == u.id ==> IsHarmless(r.outcome)) && Interleaves(hash, r.sessions, u, i, calls[1..])
  }

  /** What is committed under an upload id. */
  ghost function Commits<Meta, Extra>(hash: seq<Byte> -> string, sessions: map<string, Session<Meta, Extra>>,
                                      id: string, calls: seq<Payload<Meta, Extra>>): seq<Outcome<Meta, Extra>>
    decreases |calls|
  {
    if calls == [] then []
    else
      var r := Receive(hash, sessions, calls[0]);
      (if calls[0].uploadId == id && r.outcome.Committed? then [r.outcome] else []) +
      Commits(hash, r.sessions, id, calls[1..])
  }

  /** The state of an upload after `i` of its parts. */
  ghost predicate Halfway<Meta, Extra>(hash: seq<Byte> -> string, sessions: map<string, Session<Meta, Extra>>,
                                       u: Upload<Meta, Extra>, i: nat)
    requires i <= |u.parts|
  {
    if 0 < i < |u.parts|
    then u.id in sessions &&
         sessions[u.id] == Session(u.meta, u.extra, |u.parts|, |Concat(u.parts)|, hash(Concat(u.parts)),
                                   u.parts[..i], i, |Concat(u.parts[..i])|)
    else u.id !in sessions
  }

  lemma {:induction false} ConcatGrows(parts: seq<seq<Byte>>, i: nat)
    requires i <= |parts|
    ensures |Concat(parts[..i])| <= |Concat(parts)|
    decreases |parts| - i
  {
    if i < |parts| {
      assert parts[..i + 1][..i] == parts[..i];
      ConcatGrows(parts, i + 1);
    } else {
      assert parts[..i] == parts;
    }
  }

  /** Each carrying call moves the upload on, and the last one commits the bytes. */
  lemma PartArrives<Meta, Extra>(hash: seq<Byte> -> string, sessions: map<string, Session<Meta, Extra>>,
                                         u: Upload<Meta, Extra>, i: nat, p: Payload<Meta, Extra>)
    requires i < |u.parts| && Halfway(hash, sessions, u, i) && Carries(hash, u, i, p)
    requires |Concat(u.parts)| <= MAX_TOTAL_BYTES
    ensures var r := Receive(hash, sessions, p);
            && Halfway(hash, r.sessions, u, i + 1)
            && r.outcome == if i + 1 < |u.parts| then Accepted(i + 1) else Committed(u.meta, u.extra, Concat(u.parts))
  {
    hide Concat;
    assert u.parts[..i + 1] == u.parts[..i] + [u.parts[i]];
    ConcatPush(u.parts[..i], u.parts[i]);
    ConcatGrows(u.parts, i + 1);
    if i == 0 {
      NothingReceived();
      assert u.parts[..0] == [];
    }
    if i + 1 == |u.parts| {
      assert u.parts[..i + 1] == u.parts;
    }
  }

  /** From part `i` on, the calls commit the upload once, with exactly its bytes. */
  lemma {:induction false} RestCommits<Meta, Extra>(hash: seq<Byte> -> string,
                                                    sessions: map<string, Session<Meta, Extra>>,
                                                    u: Upload<Meta, Extra>, i: nat, calls: seq<Payload<Meta, Extra>>)
    requires i <= |u.parts| && 1 <= |u.parts| && |Concat(u.parts)| <= MAX_TOTAL_BYTES
    requires Halfway(hash, sessions, u, i) && Interleaves(hash, sessions, u, i, calls)
    ensures Commits(hash, sessions, u.id, calls) ==
            if i < |u.parts| then [Committed(u.meta, u.extra, Concat(u.parts))] else []
    decreases |calls|
  {
    hide Concat, Receive;
    if calls != [] {
      var r := Receive(hash, sessions, calls[0]);
      if i < |u.parts| && Carries(hash, u, i, calls[0]) {
        PartArrives(hash, sessions, u, i, calls[0]);
        RestCommits(hash, r.sessions, u, i + 1, calls[1..]);
      } else {
        if calls[0].uploadId == u.id {
          RefusalsKeepOrDrop(hash, sessions, calls[0]);
        } else {
          OtherUploadsUntouched(hash, sessions, calls[0], u.id);
        }
        RestCommits(hash, r.sessions, u, i, calls[1..]);
      }
    }
  }

  /** The upload round trip, for any bytes up to the cap, any cut into one or more parts, and any interleaving. */
  lemma UploadRoundTrip<Meta, Extra>(hash: seq<Byte> -> string, sessions: map<string, Session<Meta, Extra>>,
                                             u: Upload<Meta, Extra>, calls: seq<Payload<Meta, Extra>>)
    requires 1 <= |u.parts| && |Concat(u.parts)| <= MAX_TOTAL_BYTES
    requires u.id !in sessions && Interleaves(hash, sessions, u, 0, calls)
    ensures Commits(hash, sessions, u.id, calls) == [Committed(u.meta, u.extra, Concat(u.parts))]
  {
    RestCommits(hash, sessions, u, 0, calls);
  }
}
