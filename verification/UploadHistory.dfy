/** What an upload commits, told from the calls that came before: the first chunk announces it, the others only fill
    it. */
module UploadHistory {
  import opened Basics
  import opened ChunkedUpload

  ghost function Sessions<Meta, Extra>(hash: seq<Byte> -> string, calls: seq<Payload<Meta, Extra>>)
    : map<string, Session<Meta, Extra>>
  {
    if calls == [] then map[]
    else Receive(hash, Sessions(hash, calls[..|calls| - 1]), calls[|calls| - 1]).sessions
  }

  /** The chunk that opened the upload, and the bytes that were accepted for it since. */
  datatype Filling<Meta, Extra> = Filling(first: Payload<Meta, Extra>, chunks: seq<seq<Byte>>)

  function Announced<Meta, Extra>(filling: Option<Filling<Meta, Extra>>, p: Payload<Meta, Extra>)
    : Payload<Meta, Extra>
  {
    if filling.Some? then filling.value.first else p
  }

  function ChunksWith<Meta, Extra>(filling: Option<Filling<Meta, Extra>>, p: Payload<Meta, Extra>): seq<seq<Byte>> {
    (if filling.Some? then filling.value.chunks else []) + [p.chunk]
  }

  /** What is on the way under an id: an accepted chunk joins it, a commit or a refusal of the bytes ends it. */
  ghost function OnTheWay<Meta, Extra>(hash: seq<Byte> -> string, calls: seq<Payload<Meta, Extra>>, id: string)
    : Option<Filling<Meta, Extra>>
  {
    if calls == [] then None
    else
      var before, p := calls[..|calls| - 1], calls[|calls| - 1];
      var filling := OnTheWay(hash, before, id);
      if p.uploadId != id then filling
      else
        match Receive(hash, Sessions(hash, before), p).outcome
        case Accepted(_) => Some(Filling(Announced(filling, p), ChunksWith(filling, p)))
        case Committed(_, _, _) => None
        case Rejected(error) =>
          if error in {TooLarge, UnknownUpload, MetadataMismatch, IndexMismatch} then filling else None
  }

  /** A stored session is what its first chunk announced, with the chunks accepted so far. */
  ghost predicate Stores<Meta, Extra>(sessions: map<string, Session<Meta, Extra>>, id: string,
                                      filling: Option<Filling<Meta, Extra>>)
  {
    match filling
    case None => id !in sessions
    case Some(f) =>
      id in sessions &&
      sessions[id] == Session(f.first.meta, f.first.extra, f.first.totalChunks, f.first.totalBytes, f.first.sha256,
                              f.chunks, |f.chunks|, |Concat(f.chunks)|)
  }

  lemma {:induction false} SessionsStore<Meta, Extra>(hash: seq<Byte> -> string, calls: seq<Payload<Meta, Extra>>,
                                                      id: string)
    ensures Stores(Sessions(hash, calls), id, OnTheWay(hash, calls, id))
    decreases |calls|
  {
    hide Concat, Receive;
    if calls != [] {
      var before, p := calls[..|calls| - 1], calls[|calls| - 1];
      SessionsStore(hash, before, id);
      if p.uploadId == id {
        CallStores(hash, Sessions(hash, before), p, OnTheWay(hash, before, id));
      } else {
        OtherUploadsUntouched(hash, Sessions(hash, before), p, id);
      }
    }
  }

  lemma CallStores<Meta, Extra>(hash: seq<Byte> -> string, sessions: map<string, Session<Meta, Extra>>,
                                p: Payload<Meta, Extra>, filling: Option<Filling<Meta, Extra>>)
    requires Stores(sessions, p.uploadId, filling)
    ensures var r := Receive(hash, sessions, p);
            match r.outcome
            case Accepted(_) =>
              Stores(r.sessions, p.uploadId, Some(Filling(Announced(filling, p), ChunksWith(filling, p))))
            case Committed(_, _, _) => Stores(r.sessions, p.uploadId, None)
            case Rejected(error) =>
              Stores(r.sessions, p.uploadId,
                     if error in {TooLarge, UnknownUpload, MetadataMismatch, IndexMismatch} then filling else None)
  {
    hide Concat;
    NothingReceived();
    ConcatPush(if filling.Some? then filling.value.chunks else [], p.chunk);
    assert [] + [p.chunk] == [p.chunk];
  }

  /** The call continues what is on the way, or begins an upload. */
  predicate Continues<Meta(==), Extra>(filling: Option<Filling<Meta, Extra>>, p: Payload<Meta, Extra>) {
    var announced := Announced(filling, p);
    && p.totalBytes <= MAX_TOTAL_BYTES
    && p.meta == announced.meta && p.totalChunks == announced.totalChunks
    && p.chunkIndex == |ChunksWith(filling, p)| - 1
  }

  /** After any calls, a further one commits exactly when it continues the upload, is its last chunk, and completes the
      announced number of bytes with the announced hash; then it commits those bytes with what the first chunk said. It
      is accepted exactly when it continues the upload within the announced size and is not its last chunk. */
  lemma CommitsExactly<Meta, Extra>(hash: seq<Byte> -> string, calls: seq<Payload<Meta, Extra>>,
                                    p: Payload<Meta, Extra>)
    ensures var filling := OnTheWay(hash, calls, p.uploadId);
            var announced, full := Announced(filling, p), Concat(ChunksWith(filling, p));
            var outcome := Receive(hash, Sessions(hash, calls), p).outcome;
            var last := |ChunksWith(filling, p)| >= announced.totalChunks;
            && (outcome.Committed? <==>
                  Continues(filling, p) && last && |full| == announced.totalBytes && hash(full) == announced.sha256)
            && (outcome.Committed? ==> outcome == Committed(announced.meta, announced.extra, full))
            && (outcome.Accepted? <==> Continues(filling, p) && !last && |full| <= announced.totalBytes)
            && (outcome.Accepted? ==> outcome == Accepted(|ChunksWith(filling, p)|))
            && (outcome.Rejected? && IsHarmless(outcome) <==> !Continues(filling, p))
  {
    hide Concat;
    var filling := OnTheWay(hash, calls, p.uploadId);
    SessionsStore(hash, calls, p.uploadId);
    NothingReceived();
    ConcatPush(if filling.Some? then filling.value.chunks else [], p.chunk);
    assert [] + [p.chunk] == [p.chunk];
  }
}
