/** Streaming a remote file chunk by chunk (cli/gui.go, streamRemoteFile). */
module Download {
  import opened Wrappers

  type Bytes = seq<bv8>

  datatype Chunk = Chunk(offset: int, read: int, base64: string)

  /** The agent as the client sees it: the announced size, if the request succeeds, and the
      reply to the k-th chunk request for (offset, count), if it succeeds. */
  datatype Remote = Remote(size: Option<int>, chunk: (int, int, nat) -> Option<Chunk>)

  datatype DownloadError = NoInfo | ChunkFailed | WrongOffset(got: int) | Stopped | Undecodable | BadLength
                         | WriteFailed

  const CHUNK_SIZE := 256 * 1024

  function CountFor(size: int, offset: int): int {
    if size - offset < CHUNK_SIZE then size - offset else CHUNK_SIZE
  }

  /** Every successful reply carries 1 to count bytes of the file at the requested offset. */
  ghost predicate Serves(r: Remote, decode: string -> Option<Bytes>, file: Bytes) {
    && (r.size.Some? ==> r.size.value == |file|)
    && forall offset, count, k: nat :: 0 <= offset < |file| && 0 < count && r.chunk(offset, count, k).Some? ==>
         ServesChunk(r.chunk(offset, count, k).value, decode, file, offset, count)
  }

  ghost predicate ServesChunk(c: Chunk, decode: string -> Option<Bytes>, file: Bytes, offset: int, count: int)
    requires 0 <= offset < |file|
  {
    && c.offset == offset && 1 <= c.read <= count && offset + c.read <= |file|
    && decode(c.base64) == Some(file[offset..offset + c.read])
  }

  lemma ServesReply(r: Remote, decode: string -> Option<Bytes>, file: Bytes, offset: int, count: int, k: nat)
    requires Serves(r, decode, file) && 0 <= offset < |file| && 0 < count && r.chunk(offset, count, k).Some?
    ensures ServesChunk(r.chunk(offset, count, k).value, decode, file, offset, count)
  {
  }

  /** The agent answers every request. */
  ghost predicate NeverRefuses(r: Remote) {
    r.size.Some? && forall offset, count, k: nat :: r.chunk(offset, count, k).Some?
  }

  /** Whatever it serves, the agent keeps to the requested count. */
  ghost predicate Obedient(r: Remote) {
    forall offset, count, k: nat :: r.chunk(offset, count, k).Some? ==> r.chunk(offset, count, k).value.read <= count
  }

  /** No reply decodes to more than m bytes. */
  ghost predicate ChunksFit(decode: string -> Option<Bytes>, m: nat) {
    forall text :: decode(text).Some? ==> |decode(text).value| <= m
  }

  /** One request and what came back. */
  datatype Exchange = Exchange(offset: int, count: int, reply: Option<Chunk>)

  /** The reply answers its request and decodes to as many bytes as it says, at least one. */
  ghost predicate Usable(x: Exchange, decode: string -> Option<Bytes>) {
    && x.reply.Some? && x.reply.value.offset == x.offset && x.reply.value.read > 0
    && decode(x.reply.value.base64).Some? && |decode(x.reply.value.base64).value| == x.reply.value.read
  }

  /** The requests go through the file from its start, each where the last reply ended, for at most
      256 KiB and never beyond the end, and all but the last had usable replies. */
  ghost predicate Orderly(r: Remote, decode: string -> Option<Bytes>, asked: seq<Exchange>) {
    && (asked != [] ==> r.size.Some? && asked[0].offset == 0)
    && (forall k :: 0 <= k < |asked| ==>
          && asked[k].reply == r.chunk(asked[k].offset, asked[k].count, k)
          && 0 <= asked[k].offset < r.size.value
          && var left := r.size.value - asked[k].offset; asked[k].count == (if left < 262144 then left else 262144))
    && (forall k :: 0 <= k < |asked| - 1 ==>
          Usable(asked[k], decode) && asked[k + 1].offset == asked[k].offset + asked[k].reply.value.read)
  }

  /** All requests so far had usable replies, the last of which ended at `offset`. */
  ghost predicate Reached(r: Remote, decode: string -> Option<Bytes>, asked: seq<Exchange>, offset: int) {
    && Orderly(r, decode, asked) && (forall k :: 0 <= k < |asked| ==> Usable(asked[k], decode))
    && offset == if asked == [] then 0 else asked[|asked| - 1].offset + asked[|asked| - 1].reply.value.read
  }

  lemma AskedNext(r: Remote, decode: string -> Option<Bytes>, asked: seq<Exchange>, x: Exchange)
    requires r.size.Some? && Reached(r, decode, asked, x.offset) && 0 <= x.offset < r.size.value
    requires x.count == CountFor(r.size.value, x.offset) && x.reply == r.chunk(x.offset, x.count, |asked|)
    ensures Orderly(r, decode, asked + [x])
    ensures Usable(x, decode) ==> Reached(r, decode, asked + [x], x.offset + x.reply.value.read)
  {
  }

  /** What has been fetched never goes further beyond the end than the last reply does. */
  lemma StaysClose(r: Remote, decode: string -> Option<Bytes>, asked: seq<Exchange>, offset: int)
    requires r.size.Some? && Reached(r, decode, asked, offset)
    ensures forall m: nat :: ChunksFit(decode, m) && r.size.value > 0 ==> offset < r.size.value + m
  {
    if asked != [] {
      assert Usable(asked[|asked| - 1], decode);
    }
  }

  /** The error says what was wrong with the last exchange, or that its bytes could not be written. */
  ghost predicate Explains(error: DownloadError, r: Remote, decode: string -> Option<Bytes>, asked: seq<Exchange>) {
    match error
    case NoInfo => r.size.None? && asked == []
    case WriteFailed => asked != [] && Usable(asked[|asked| - 1], decode)
    case _ => asked != [] && Refuses(error, asked[|asked| - 1], decode)
  }

  ghost predicate Refuses(error: DownloadError, x: Exchange, decode: string -> Option<Bytes>) {
    match error
    case ChunkFailed => x.reply.None?
    case WrongOffset(got) => x.reply.Some? && x.reply.value.offset == got && got != x.offset
    case Stopped => x.reply.Some? && x.reply.value.offset == x.offset && x.reply.value.read <= 0
    case Undecodable => x.reply.Some? && x.reply.value.offset == x.offset && x.reply.value.read > 0
                        && decode(x.reply.value.base64).None?
    case BadLength => x.reply.Some? && x.reply.value.offset == x.offset && decode(x.reply.value.base64).Some?
                      && |decode(x.reply.value.base64).value| != x.reply.value.read
    case _ => false
  }

  /** An agent that serves some file and refuses nothing gives usable replies only. */
  lemma ServesUsably(r: Remote, decode: string -> Option<Bytes>, offset: int, count: int, k: nat)
    requires NeverRefuses(r) && 0 <= offset < r.size.value && 0 < count
    requires exists file :: Serves(r, decode, file)
    ensures Usable(Exchange(offset, count, r.chunk(offset, count, k)), decode)
  {
    var file :| Serves(r, decode, file);
    ServesReply(r, decode, file, offset, count, k);
  }

  /** The checks of one reply. */
  method CheckReply(x: Exchange, decode: string -> Option<Bytes>) returns (r: Result<Bytes, DownloadError>)
    ensures r.Ok? <==> Usable(x, decode)
    ensures r.Ok? ==> decode(x.reply.value.base64) == Some(r.value)
    ensures r.Err? ==> Refuses(r.error, x, decode)
  {
    if x.reply.None? {
      return Err(ChunkFailed);
    }
    var chunk := x.reply.value;
    if chunk.offset != x.offset {
      return Err(WrongOffset(chunk.offset));
    }
    if chunk.read <= 0 {
      return Err(Stopped);
    }
    var data := decode(chunk.base64);
    if data.None? {
      return Err(Undecodable);
    }
    if |data.value| != chunk.read {
      return Err(BadLength);
    }
    return Ok(data.value);
  }

  /** `room(k)` is how many bytes the k-th write accepts; fewer than offered is a failed write. */
  method StreamRemoteFile(r: Remote, decode: string -> Option<Bytes>, room: nat -> nat)
    returns (written: Bytes, ghost asked: seq<Exchange>, error: Option<DownloadError>)
    // against an agent that serves one unchanged file
    ensures forall file :: Serves(r, decode, file) ==> written <= file && (error.None? ==> written == file)
    ensures (exists file :: Serves(r, decode, file)) && NeverRefuses(r) && (forall k :: room(k) >= CHUNK_SIZE) ==>
              error.None?
    // against any agent at all
    ensures error.None? ==> r.size.Some? && |written| >= r.size.value
    ensures error.None? && Obedient(r) && r.size.value >= 0 ==> |written| == r.size.value
    ensures forall m: nat :: ChunksFit(decode, m) && r.size.Some? && r.size.value > 0 ==> |written| < r.size.value + m
    ensures r.size.Some? && r.size.value > 0 ==> |asked| <= r.size.value
    ensures r.size.None? || r.size.value <= 0 ==> asked == [] && written == []
    // a reply that does not fit ends in the error that says so, and in that case only
    ensures Orderly(r, decode, asked)
    ensures error.Some? ==> Explains(error.value, r, decode, asked)
    ensures error.None? ==> forall k :: 0 <= k < |asked| ==> Usable(asked[k], decode)
  {
    written, asked := [], [];
    if r.size.None? {
      return written, asked, Some(NoInfo);
    }
    var size := r.size.value;
    if size == 0 {
      return written, asked, None;
    }
    var offset, requests := 0, 0;
    while offset < size
      invariant 0 <= offset == |written| && |asked| == requests <= offset
      invariant Reached(r, decode, asked, offset)
      invariant requests <= (if size > 0 then size else 0)
      invariant size > 0 || (requests == 0 && offset == 0)
      invariant forall file :: Serves(r, decode, file) ==> written <= file
      invariant Obedient(r) && size >= 0 ==> offset <= size
    {
      var count := CountFor(size, offset);
      var reply := r.chunk(offset, count, requests);
      requests := requests + 1;
      var x := Exchange(offset, count, reply);
      ghost var before := asked;
      AskedNext(r, decode, asked, x);
      asked := asked + [x];
      assert asked[|asked| - 1] == x;
      var data := CheckReply(x, decode);
      if data.Err? {
        if NeverRefuses(r) && exists file :: Serves(r, decode, file) {
          ServesUsably(r, decode, offset, count, requests - 1);
        }
        StaysClose(r, decode, before, offset);
        return written, asked, Some(data.error);
      }
      StaysClose(r, decode, asked, offset + reply.value.read);
      ghost var fetched := written;
      var accepted := room(requests - 1);
      forall file | Serves(r, decode, file) ensures fetched + data.value <= file {
        ServesReply(r, decode, file, offset, count, requests - 1);
        assert data.value == file[offset..offset + |data.value|];
      }
      if accepted < |data.value| {
        written := written + data.value[..accepted];
        assert written <= fetched + data.value;
        return written, asked, Some(WriteFailed);
      }
      written := written + data.value;
      offset := offset + reply.value.read;
    }
    StaysClose(r, decode, asked, offset);
    return written, asked, None;
  }
}
