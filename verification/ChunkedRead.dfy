/** Reading a file in chunks (crates/config-agent/src/query_handler.rs: `content`). */
module ChunkedRead {
  import opened Numbers
  import opened Options
  import opened Snapshots

  const MAX_CONTENT_BYTES: nat := 10 * 1024 * 1024
  const DEFAULT_CHUNK_BYTES: nat := 256 * 1024

  datatype ReadError = PathRefused | NoMetadata | TooLarge | BeyondEnd | CannotOpen | CannotSeek | CannotRead

  datatype Chunk = Chunk(found: bool, size: nat, content: Option<Bytes>, offset: nat, length: nat, last: bool)

  datatype Outcome = Read(chunk: Chunk) | Refused(error: ReadError)

  /** What the file system does: whether each call works, and how many bytes a read returns at most. */
  datatype FileIo = FileIo(metadata: bool, opens: bool, seeks: bool, readable: bool, short: nat)

  function Content(allowed: bool, file: Option<Bytes>, offset: Option<nat>, limit: Option<nat>, io: FileIo): Outcome {
    if !allowed then Refused(PathRefused)
    else if file.None? then Read(Chunk(false, 0, None, 0, 0, true))
    else if !io.metadata then Refused(NoMetadata)
    else if |file.value| > MAX_CONTENT_BYTES then Refused(TooLarge)
    else
      var start := if offset.Some? then offset.value else 0;
      if start > |file.value| then Refused(BeyondEnd)
      else if !io.opens then Refused(CannotOpen)
      else if !io.seeks then Refused(CannotSeek)
      else if !io.readable then Refused(CannotRead)
      else
        var wanted := Min(|file.value| - start, if limit.Some? then limit.value else DEFAULT_CHUNK_BYTES);
        var length := Min(wanted, io.short);
        Read(Chunk(true, |file.value|, Some(file.value[start..start + length]), start, length,
                   start + length >= |file.value|))
  }

  /** A read returns at least one byte of those it wants. */
  predicate Progresses(io: FileIo) {
    io.metadata && io.opens && io.seeks && io.readable && io.short >= 1
  }

  /** The bytes a client gets by asking from `offset` on and moving on by the length of each chunk until
      the last one; `ios` says how the read at each offset goes. */
  function ReadFrom(data: Bytes, offset: nat, limit: Option<nat>, ios: nat -> FileIo): (bytes: Bytes)
    requires offset <= |data| <= MAX_CONTENT_BYTES && (limit.Some? ==> limit.value >= 1)
    requires forall k: nat :: k <= |data| ==> Progresses(ios(k))
    decreases |data| - offset
  {
    var outcome := Content(true, Some(data), Some(offset), limit, ios(offset));
    if outcome.Refused? || outcome.chunk.content.None? then []
    else if outcome.chunk.last then outcome.chunk.content.value
    else outcome.chunk.content.value + ReadFrom(data, offset + outcome.chunk.length, limit, ios)
  }

  lemma JoinSlices(data: Bytes, i: nat, j: nat)
    requires i <= j <= |data|
    ensures data[i..j] + data[j..] == data[i..]
  {
  }

  /** Whatever the limit and however short the reads, the chunks are the file's bytes, each once and in order. */
  lemma {:induction false} ChunksAreTheFile(data: Bytes, offset: nat, limit: Option<nat>, ios: nat -> FileIo)
    requires offset <= |data| <= MAX_CONTENT_BYTES && (limit.Some? ==> limit.value >= 1)
    requires forall k: nat :: k <= |data| ==> Progresses(ios(k))
    ensures ReadFrom(data, offset, limit, ios) == data[offset..]
    decreases |data| - offset
  {
    var outcome := Content(true, Some(data), Some(offset), limit, ios(offset));
    assert Progresses(ios(offset));
    var next := offset + outcome.chunk.length;
    if outcome.chunk.last {
      assert data[offset..next] == data[offset..];
    } else {
      ChunksAreTheFile(data, next, limit, ios);
      JoinSlices(data, offset, next);
    }
  }

  /** Any answer but an error tells the truth about its place in the file, and the last chunk is the one
      that ends it. */
  lemma AnswerIsSlice(file: Option<Bytes>, offset: Option<nat>, limit: Option<nat>, io: FileIo)
    requires Content(true, file, offset, limit, io).Read?
    ensures
      var c := Content(true, file, offset, limit, io).chunk;
      if file.None? then !c.found && c.content == None && c.last
      else
        && c.found && c.size == |file.value| && c.offset + c.length <= c.size
        && c.content == Some(file.value[c.offset..c.offset + c.length])
        && (c.last <==> c.offset + c.length == c.size) && (limit.Some? ==> c.length <= limit.value)
  {
  }

  /** A client that asks for zero bytes of a file that has more never gets on. */
  lemma ZeroLimitNeverEnds(data: Bytes, offset: nat, io: FileIo)
    requires offset < |data| <= MAX_CONTENT_BYTES && Progresses(io)
    ensures Content(true, Some(data), Some(offset), Some(0), io)
         == Read(Chunk(true, |data|, Some([]), offset, 0, false))
  {
    assert data[offset..offset] == [];
  }

  /** When a read is refused, and why: a path that is not allowed, a file over 10 MiB, a start beyond its end,
      or a failing call, in this order. A missing file is not an error. */
  lemma RefusedIff(allowed: bool, file: Option<Bytes>, offset: Option<nat>, limit: Option<nat>, io: FileIo)
    ensures
      var answer := Content(allowed, file, offset, limit, io);
      var fits := allowed && file.Some? && io.metadata && |file.value| <= 10_485_760;
      var inside := fits && (offset.None? || offset.value <= |file.value|);
      && (answer == Refused(PathRefused) <==> !allowed)
      && (answer == Refused(NoMetadata) <==> allowed && file.Some? && !io.metadata)
      && (answer == Refused(TooLarge) <==> allowed && file.Some? && io.metadata && |file.value| > 10_485_760)
      && (answer == Refused(BeyondEnd) <==> fits && offset.Some? && offset.value > |file.value|)
      && (answer.Read? <==> allowed && (file.None? || (inside && io.opens && io.seeks && io.readable)))
  {
  }

  /** A chunk starts where the client asked, or at the beginning, and is as long as the rest of the file, the
      limit (256 KiB without one) and the system allow. */
  lemma ChunkIsWhatWasAsked(file: Bytes, offset: Option<nat>, limit: Option<nat>, io: FileIo)
    requires Content(true, Some(file), offset, limit, io).Read?
    ensures
      var c := Content(true, Some(file), offset, limit, io).chunk;
      var most := if limit.None? then 262_144 else limit.value;
      && (offset.None? ==> c.offset == 0) && (offset.Some? ==> c.offset == offset.value)
      && c.length <= most && c.length <= io.short && c.offset + c.length <= |file|
      && (c.length == most || c.length == io.short || c.offset + c.length == |file|)
      && c.content.Some? && |c.content.value| == c.length
      && forall k :: 0 <= k < c.length ==> c.content.value[k] == file[c.offset + k]
  {
  }
}
