/** Chunked image upload: the session row, the growing file, finalizing, aborting, and the client
    that slices a file. */
module ImageUpload {
  import opened Wrappers
  import opened Strings

  type Byte = b: int | 0 <= b < 256
  type Bytes = seq<Byte>

  const CHUNK_READ_SIZE: nat := 4 * 1024 * 1024

  datatype UploadStatus = UPLOADING | COMPLETED | FAILED | ABORTED
  datatype ImageStatus = Uploading | Ready | Failed

  /** The session row; a request works on a copy of it that it read when it arrived. */
  datatype Session = Session(total: nat, received: nat, next: nat, expected: string, status: UploadStatus)
  datatype Image = Image(status: ImageStatus, sha256: string, size: nat)

  datatype Upload = Upload(session: Session, image: Image, temp: Option<Bytes>, stored: Option<Bytes>)

  datatype Reply =
    | Received(received: nat, next: nat, written: nat)
    | ReadyImage(sha256: string, size: nat)
    | UploadNotActive | ValidationFailed | UploadBusy | OutOfOrder | UploadEmpty | SizeMismatch | ChecksumMismatch | Gone

  // ---- What the requests do ----

  function Existing(temp: Option<Bytes>): Bytes {
    if temp.Some? then temp.value else []
  }

  /** Appends to the file as it is, and saves the copy's counters moved on. */
  function Written(u: Upload, copy: Session, body: Bytes): Upload {
    u.(temp := Some(Existing(u.temp) + body),
       session := u.session.(received := copy.received + |body|, next := copy.next + 1))
  }

  function PutReply(copy: Session, index: Option<int>, body: Option<Bytes>, lockFree: bool): Reply {
    if copy.status != UPLOADING then UploadNotActive
    else if body.None? then ValidationFailed
    else if !lockFree then UploadBusy
    else if index.Some? && index.value != copy.next then OutOfOrder
    else Received(copy.received + |body.value|, copy.next + 1, |body.value|)
  }

  function Put(u: Upload, copy: Session, index: Option<int>, body: Option<Bytes>, lockFree: bool): Upload {
    if PutReply(copy, index, body, lockFree).Received? then Written(u, copy, body.value) else u
  }

  function FinalizeReply(u: Upload, hash: Bytes -> string): Reply {
    if u.session.status == COMPLETED then ReadyImage(u.image.sha256, u.image.size)
    else if u.session.status != UPLOADING then UploadNotActive
    else if u.temp.None? then UploadEmpty
    else if |u.temp.value| != u.session.total then SizeMismatch
    else if u.session.expected != "" && Lower(u.session.expected) != hash(u.temp.value) then ChecksumMismatch
    else ReadyImage(hash(u.temp.value), |u.temp.value|)
  }

  function Finalize(u: Upload, hash: Bytes -> string): Upload {
    if u.session.status != UPLOADING then u
    else if FinalizeReply(u, hash).ReadyImage? then
      u.(session := u.session.(status := COMPLETED), temp := None, stored := u.temp,
         image := Image(Ready, hash(Existing(u.temp)), |Existing(u.temp)|))
    else u.(session := u.session.(status := FAILED), image := u.image.(status := Failed))
  }

  function Abort(u: Upload): Upload {
    u.(session := u.session.(status := ABORTED), temp := None, image := u.image.(status := Failed))
  }

  function Begun(total: nat, expected: string): Upload {
    Upload(Session(total, 0, 0, expected, UPLOADING), Image(Uploading, "", 0), None, None)
  }

  // ---- The server ----

  class Controller {
    const hash: Bytes -> string
    var session: Session
    var image: Image
    var temp: Option<Bytes>
    var stored: Option<Bytes>

    ghost function State(): Upload
      reads this
    {
      Upload(session, image, temp, stored)
    }

    constructor (total: nat, expected: string, hash: Bytes -> string)
      ensures State() == Begun(total, expected) && this.hash == hash
    {
      this.hash := hash;
      session, image := Session(total, 0, 0, expected, UPLOADING), Image(Uploading, "", 0);
      temp, stored := None, None;
    }

    method WriteChunk(copy: Session, index: int, body: Bytes) returns (reply: Reply)
      modifies this
      ensures index != copy.next ==> reply == OutOfOrder && State() == old(State())
      ensures index == copy.next ==> reply == Received(copy.received + |body|, copy.next + 1, |body|)
      ensures index == copy.next ==> State() == Written(old(State()), copy, body)
    {
      if index != copy.next {
        return OutOfOrder;
      }
      var out := if temp.Some? then temp.value else [];
      var written := 0;
      while written < |body|
        invariant 0 <= written <= |body| && out == Existing(temp) + body[..written]
        invariant State() == old(State())
      {
        var block := body[written..if written + CHUNK_READ_SIZE < |body| then written + CHUNK_READ_SIZE else |body|];
        assert body[..written] + block == body[..written + |block|];
        out := out + block;
        written := written + |block|;
      }
      assert body[..written] == body;
      temp := Some(out);
      session := session.(received := copy.received + written, next := copy.next + 1);
      reply := Received(copy.received + written, copy.next + 1, written);
    }

    /** `copy` is the row as the request read it, before it took the lock. */
    method PutChunk(copy: Session, index: Option<int>, body: Option<Bytes>, lockFree: bool) returns (reply: Reply)
      modifies this
      ensures reply == PutReply(copy, index, body, lockFree)
      ensures State() == Put(old(State()), copy, index, body, lockFree)
    {
      if copy.status != UPLOADING {
        return UploadNotActive;
      }
      if body.None? {
        return ValidationFailed;
      }
      if !lockFree {
        return UploadBusy;
      }
      reply := WriteChunk(copy, if index.Some? then index.value else copy.next, body.value);
    }

    /** The digest of a file read block by block; feeding blocks is feeding their concatenation. */
    method Digest(bytes: Bytes) returns (checksum: string)
      ensures checksum == hash(bytes)
    {
      var fed: Bytes, at := [], 0;
      while at < |bytes|
        invariant 0 <= at <= |bytes| && fed == bytes[..at]
      {
        var block := bytes[at..if at + CHUNK_READ_SIZE < |bytes| then at + CHUNK_READ_SIZE else |bytes|];
        assert bytes[..at] + block == bytes[..at + |block|];
        fed, at := fed + block, at + |block|;
      }
      assert bytes[..at] == bytes;
      checksum := hash(fed);
    }

    method FinalizeUpload() returns (reply: Reply)
      modifies this
      ensures reply == FinalizeReply(old(State()), hash)
      ensures State() == Finalize(old(State()), hash)
    {
      if session.status == COMPLETED {
        return ReadyImage(image.sha256, image.size);
      }
      if session.status != UPLOADING {
        return UploadNotActive;
      }
      reply := UploadEmpty;
      if temp.Some? {
        reply := SizeMismatch;
        if |temp.value| == session.total {
          var checksum := Digest(temp.value);
          reply := ChecksumMismatch;
          if session.expected == "" || Lower(session.expected) == checksum {
            reply := ReadyImage(checksum, |temp.value|);
          }
        }
      }
      if !reply.ReadyImage? {
        session, image := session.(status := FAILED), image.(status := Failed);
        return;
      }
      temp, stored := None, temp;
      session := session.(status := COMPLETED);
      image := Image(Ready, reply.sha256, reply.size);
    }

    method AbortUpload()
      modifies this
      ensures State() == Abort(old(State()))
    {
      temp := None;
      session, image := session.(status := ABORTED), image.(status := Failed);
    }
  }

  // ---- Runs of requests that do not overlap ----

  datatype Request = PutChunk(index: Option<int>, body: Option<Bytes>, lockFree: bool) | FinalizeUpload | AbortUpload

  function Serve(u: Upload, r: Request, hash: Bytes -> string): Upload {
    match r
    case PutChunk(index, body, lockFree) => Put(u, u.session, index, body, lockFree)
    case FinalizeUpload => Finalize(u, hash)
    case AbortUpload => Abort(u)
  }

  function Run(total: nat, expected: string, hash: Bytes -> string, requests: seq<Request>): Upload {
    if requests == [] then Begun(total, expected)
    else Serve(Run(total, expected, hash, requests[..|requests| - 1]), requests[|requests| - 1], hash)
  }

  /** The bodies of the chunks accepted in a run, in order. */
  function Accepted(total: nat, expected: string, hash: Bytes -> string, requests: seq<Request>): seq<Bytes> {
    if requests == [] then []
    else
      var before, last := requests[..|requests| - 1], requests[|requests| - 1];
      var session := Run(total, expected, hash, before).session;
      Accepted(total, expected, hash, before)
      + (if last.PutChunk? && PutReply(session, last.index, last.body, last.lockFree).Received? then [last.body.value] else [])
  }

  function Joined(chunks: seq<Bytes>): Bytes {
    if chunks == [] then [] else Joined(chunks[..|chunks| - 1]) + chunks[|chunks| - 1]
  }

  lemma {:induction false} JoinedSnoc(chunks: seq<Bytes>, chunk: Bytes)
    ensures Joined(chunks + [chunk]) == Joined(chunks) + chunk
  {
    assert (chunks + [chunk])[..|chunks|] == chunks;
  }

  ghost predicate Consistent(u: Upload, chunks: seq<Bytes>, hash: Bytes -> string) {
    && u.session.received == |Joined(chunks)|
    && u.session.next == |chunks|
    && (u.session.status == UPLOADING || u.session.status == FAILED ==>
          u.temp == (if chunks == [] then None else Some(Joined(chunks))))
    && (u.session.status == UPLOADING ==> u.image.status == Uploading && u.stored == None)
    && (u.session.status == COMPLETED ==>
          && u.temp == None && u.stored == Some(Joined(chunks)) && |Joined(chunks)| == u.session.total
          && u.image == Image(Ready, hash(Joined(chunks)), u.session.total)
          && (u.session.expected == "" || Lower(u.session.expected) == hash(Joined(chunks))))
    && (u.session.status == FAILED || u.session.status == ABORTED ==> u.image.status == Failed)
  }

  /** A chunk written with a copy read at any earlier time keeps the counters and the file together
      exactly when the copy's counters are still the row's. */
  lemma {:induction false} ChunkIsSafeIffTheCopyIsCurrent(u: Upload, chunks: seq<Bytes>, copy: Session, body: Bytes, hash: Bytes -> string)
    requires Consistent(u, chunks, hash) && u.session.status == UPLOADING
    ensures Consistent(Written(u, copy, body), chunks + [body], hash)
            <==> copy.received == u.session.received && copy.next == u.session.next
  {
    JoinedSnoc(chunks, body);
  }

  /** A retry that read the session before the first attempt saved, and took the lock after it,
      passes the index check and writes the chunk again. */
  lemma {:induction false} LateRetryWritesTwice(body: Bytes, hash: Bytes -> string)
    requires body != []
    ensures var start := Begun(2 * |body|, "");
      var copy := start.session;
      var once := Put(start, copy, Some(0), Some(body), true);
      var twice := Put(once, copy, Some(0), Some(body), true);
      && PutReply(copy, Some(0), Some(body), true).Received?
      && twice.temp == Some(body + body) && twice.session.next == 1 && twice.session.received == |body|
      && Finalize(twice, hash).session.status == COMPLETED
      && !Consistent(twice, [body, body], hash)
  {
    assert [] + body == body;
  }

  lemma {:induction false} ServeKeepsConsistent(u: Upload, chunks: seq<Bytes>, r: Request, hash: Bytes -> string)
    requires Consistent(u, chunks, hash)
    ensures var taken := r.PutChunk? && PutReply(u.session, r.index, r.body, r.lockFree).Received?;
      Consistent(Serve(u, r, hash), if taken then chunks + [r.body.value] else chunks, hash)
  {
    if r.PutChunk? && PutReply(u.session, r.index, r.body, r.lockFree).Received? {
      ChunkIsSafeIffTheCopyIsCurrent(u, chunks, u.session, r.body.value, hash);
    }
  }

  /** In every run of requests handled one at a time, whatever their indices, sizes and order: the
      counters are the length of the file and the number of accepted chunks, the file is their
      concatenation, and a completed upload has stored exactly that, of the declared size. */
  lemma {:induction false} UploadInvariant(total: nat, expected: string, hash: Bytes -> string, requests: seq<Request>)
    ensures Consistent(Run(total, expected, hash, requests), Accepted(total, expected, hash, requests), hash)
    decreases |requests|
  {
    if requests != [] {
      var before, last := requests[..|requests| - 1], requests[|requests| - 1];
      UploadInvariant(total, expected, hash, before);
      var u, chunks := Run(total, expected, hash, before), Accepted(total, expected, hash, before);
      ServeKeepsConsistent(u, chunks, last, hash);
      if !(last.PutChunk? && PutReply(u.session, last.index, last.body, last.lockFree).Received?) {
        assert chunks + [] == chunks;
      }
    }
  }

  /** A chunk is taken exactly if the copy is of an active session, there is a body, the lock is free
      and the index, if given, is the copy's next one; then the body is appended and the copy's
      counters move on, and otherwise nothing changes. */
  lemma {:induction false} PutExactly(u: Upload, copy: Session, index: Option<int>, body: Option<Bytes>, lockFree: bool)
    ensures var after, reply := Put(u, copy, index, body, lockFree), PutReply(copy, index, body, lockFree);
      if copy.status == UPLOADING && body.Some? && lockFree && (index == None || index == Some(copy.next)) then
        && reply == Received(copy.received + |body.value|, copy.next + 1, |body.value|)
        && after.temp == Some((if u.temp.Some? then u.temp.value else []) + body.value)
        && after.session == u.session.(received := copy.received + |body.value|, next := copy.next + 1)
        && after.image == u.image && after.stored == u.stored
      else after == u && !reply.Received?
  {
  }

  /** In every run, a chunk whose index is not the number of chunks taken so far is refused. */
  lemma {:induction false} WrongIndexIsRefused(total: nat, expected: string, hash: Bytes -> string, requests: seq<Request>,
                                               index: int, body: Option<Bytes>, lockFree: bool)
    requires index != |Accepted(total, expected, hash, requests)|
    ensures var u := Run(total, expected, hash, requests);
      && Run(total, expected, hash, requests + [PutChunk(Some(index), body, lockFree)]) == u
      && Accepted(total, expected, hash, requests + [PutChunk(Some(index), body, lockFree)]) == Accepted(total, expected, hash, requests)
  {
    UploadInvariant(total, expected, hash, requests);
    var all := requests + [PutChunk(Some(index), body, lockFree)];
    assert all[..|all| - 1] == requests;
    PutExactly(Run(total, expected, hash, requests), Run(total, expected, hash, requests).session, Some(index), body, lockFree);
  }

  /** In every run, finalizing an active upload completes it exactly if some chunk was taken, the chunks
      have the declared size and, if one was declared, the checksum. */
  lemma {:induction false} FinalizeExactly(total: nat, expected: string, hash: Bytes -> string, requests: seq<Request>)
    requires Run(total, expected, hash, requests).session.status == UPLOADING
    ensures var chunks := Accepted(total, expected, hash, requests);
      var after := Finalize(Run(total, expected, hash, requests), hash);
      if chunks != [] && |Joined(chunks)| == total && (expected == "" || Lower(expected) == hash(Joined(chunks)))
      then after.session.status == COMPLETED && after.stored == Some(Joined(chunks)) && after.image.status == Ready
      else after.session.status == FAILED && after.stored == None && after.image.status == Failed
  {
    UploadInvariant(total, expected, hash, requests);
    DeclaredStays(total, expected, hash, requests);
  }

  lemma {:induction false} DeclaredStays(total: nat, expected: string, hash: Bytes -> string, requests: seq<Request>)
    ensures var s := Run(total, expected, hash, requests).session; s.total == total && s.expected == expected
    decreases |requests|
  {
    if requests != [] {
      DeclaredStays(total, expected, hash, requests[..|requests| - 1]);
    }
  }

  /** Aborting removes the file and gives up session and image; a stored image stays stored. */
  lemma {:induction false} AbortExactly(u: Upload)
    ensures var after := Abort(u);
      && after.temp == None && after.stored == u.stored && after.session == u.session.(status := ABORTED)
      && after.image == u.image.(status := Failed)
      && forall index, body, lockFree :: Put(after, after.session, index, body, lockFree) == after
  {
  }

  /** Finalizing again changes nothing and answers a success with the same success. */
  lemma {:induction false} FinalizeIsIdempotent(u: Upload, hash: Bytes -> string)
    requires u.session.status == COMPLETED ==> u.image.status == Ready
    ensures Finalize(Finalize(u, hash), hash) == Finalize(u, hash)
    ensures FinalizeReply(u, hash).ReadyImage? ==> FinalizeReply(Finalize(u, hash), hash) == FinalizeReply(u, hash)
  {
  }

  // ---- The client ----

  function Least(a: nat, b: nat): nat {
    if a <= b then a else b
  }

  /** Slices a file, sends the slices in order and finalizes. The API refuses to begin an upload of
      no bytes; every other file ends up stored as it is. */
  method UploadImage(file: Bytes, chunkSize: nat, hash: Bytes -> string) returns (c: Controller?, reply: Reply)
    requires chunkSize > 0
    ensures c == null <==> file == []
    ensures c != null ==>
      && reply == ReadyImage(hash(file), |file|)
      && c.stored == Some(file) && c.temp == None && c.session.status == COMPLETED
      && c.image == Image(Ready, hash(file), |file|)
      && c.session.received == |file| && (c.session.next - 1) * chunkSize < |file| <= c.session.next * chunkSize
  {
    if |file| < 1 {
      return null, ValidationFailed;
    }
    c := new Controller(|file|, "", hash);
    var offset, index := 0, 0;
    while offset < |file|
      invariant fresh(c) && c.hash == hash
      invariant offset == Least(index * chunkSize, |file|) && (index > 0 ==> (index - 1) * chunkSize < |file|)
      invariant c.session == Session(|file|, offset, index, "", UPLOADING) && c.stored == None
      invariant c.temp == if index == 0 then None else Some(file[..offset])
    {
      var chunk := file[offset..Least(offset + chunkSize, |file|)];
      assert (index + 1) * chunkSize == index * chunkSize + chunkSize;
      reply := c.PutChunk(c.session, Some(index), Some(chunk), true);
      assert file[..offset] + chunk == file[..offset + |chunk|];
      offset := offset + |chunk|;
      index := index + 1;
    }
    assert file[..offset] == file;
    reply := c.FinalizeUpload();
  }
}
