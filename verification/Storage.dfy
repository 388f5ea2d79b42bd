/** Blob stores, the handles they open, and the chunked body of a download. */
module Storage {
  import opened Wrappers
  import opened Ranges
  import Decimal

  type Key = string
  type Blob = seq<Byte>
  type Size = n: nat | n > 0 witness 1

  datatype OpenError = ObjectNotFound | RangeRejected

  datatype Backend = FilesystemBackend | S3Backend

  const STREAM_CHUNK_SIZE: nat := 64 * 1024

  function Least(a: int, b: int): (m: int)
    ensures m <= a && m <= b && (m == a || m == b)
  {
    if a <= b then a else b
  }

  /** An open file or response body; a read may return less than it was asked for. */
  class FileHandle {
    const content: Blob
    var pos: nat
    var closed: bool

    constructor (content: Blob, pos: nat)
      ensures this.content == content && this.pos == pos && !closed
    {
      this.content, this.pos, closed := content, pos, false;
    }

    function Rest(): (r: Blob)
      reads this`pos
    {
      if pos <= |content| then content[pos..] else []
    }

    method Read(n: nat) returns (chunk: Blob)
      requires !closed && n > 0
      modifies this`pos
      ensures |chunk| <= n
      ensures old(Rest()) == chunk + Rest()
      ensures chunk == [] ==> old(Rest()) == []
    {
      if pos >= |content| {
        chunk := [];
      } else {
        var k: nat :| 1 <= k <= n && k <= |content| - pos;
        chunk := content[pos..pos + k];
        assert content[pos..] == chunk + content[pos + k..];
        pos := pos + k;
      }
    }

    method Close()
      modifies this`closed
      ensures closed
    {
      closed := true;
    }
  }

  function Flatten(chunks: seq<Blob>): (r: Blob) {
    if chunks == [] then [] else Flatten(chunks[..|chunks| - 1]) + chunks[|chunks| - 1]
  }

  /** The part of `rest` that a reader with this byte budget gets to see. */
  function Budgeted(rest: Blob, remaining: Option<int>): (r: Blob)
    ensures r <= rest
  {
    if remaining == None then rest
    else if remaining.value <= 0 then []
    else rest[..Least(remaining.value, |rest|)]
  }

  lemma FlattenSnoc(chunks: seq<Blob>, chunk: Blob)
    ensures Flatten(chunks + [chunk]) == Flatten(chunks) + chunk
  {
    assert (chunks + [chunk])[..|chunks|] == chunks;
  }

  /** What is out and what is left make up the start, and the budget left is what is not spent. */
  ghost predicate Emitting(start: Blob, emitted: Blob, rest: Blob, budget: Option<int>, remaining: Option<int>) {
    && start == emitted + rest
    && remaining == (if budget == None then None else Some(budget.value - |emitted|))
    && (emitted == [] || remaining == None || remaining.value >= 0)
  }

  lemma EmitMore(
    start: Blob, emitted: Blob, chunk: Blob, rest: Blob, budget: Option<int>, remaining: Option<int>,
    next: Option<int>)
    requires Emitting(start, emitted, chunk + rest, budget, remaining)
    requires next == (if remaining == None then None else Some(remaining.value - |chunk|))
    requires next == None || next.value >= 0
    ensures Emitting(start, emitted + chunk, rest, budget, next)
  {
  }

  /** Emission is complete when the handle is exhausted or the budget is. */
  lemma EmittedAll(start: Blob, emitted: Blob, rest: Blob, budget: Option<int>, remaining: Option<int>)
    requires Emitting(start, emitted, rest, budget, remaining)
    requires rest == [] || (remaining.Some? && remaining.value <= 0)
    ensures emitted == Budgeted(start, budget)
  {
  }

  /**
   * Emits the handle's bytes up to the budget, whatever the pattern of short reads: nothing is lost,
   * repeated or reordered, no chunk is empty or above the chunk size, and the handle is closed.
   */
  method IterAttachmentChunks(handle: FileHandle, remainingBytes: Option<int>) returns (chunks: seq<Blob>)
    requires !handle.closed
    modifies handle
    ensures Flatten(chunks) == Budgeted(old(handle.Rest()), remainingBytes)
    ensures forall c | c in chunks :: 0 < |c| <= STREAM_CHUNK_SIZE
    ensures handle.closed
  {
    ghost var start, emitted := handle.Rest(), [];
    var remaining := remainingBytes;
    chunks := [];
    while true
      invariant !handle.closed
      invariant emitted == Flatten(chunks)
      invariant Emitting(start, emitted, handle.Rest(), remainingBytes, remaining)
      invariant forall c | c in chunks :: 0 < |c| <= STREAM_CHUNK_SIZE
      decreases |handle.Rest()|
    {
      var readSize := STREAM_CHUNK_SIZE;
      if remaining.Some? {
        if remaining.value <= 0 { break; }
        readSize := Least(readSize, remaining.value);
      }
      ghost var before := remaining;
      var chunk := handle.Read(readSize);
      if chunk == [] { break; }
      FlattenSnoc(chunks, chunk);
      chunks := chunks + [chunk];
      if remaining.Some? {
        remaining := Some(remaining.value - |chunk|);
      }
      EmitMore(start, emitted, chunk, handle.Rest(), remainingBytes, before, remaining);
      emitted := emitted + chunk;
    }
    EmittedAll(start, emitted, handle.Rest(), remainingBytes, remaining);
    handle.Close();
  }

  /** What a file opened for this range yields: a seek to the start, the end of the range is not used. */
  function FilesystemBytes(files: map<Key, Blob>, key: Key, range: Option<(nat, nat)>): (r: Result<Blob, OpenError>) {
    if key !in files then Err(ObjectNotFound)
    else if range == None then Ok(files[key])
    else Ok(files[key][Least(range.value.0, |files[key]|)..])
  }

  /** What object storage yields for this range: both ends count, a start past the object is refused. */
  function ObjectBytes(objects: map<Key, Blob>, key: Key, range: Option<(nat, nat)>): (r: Result<Blob, OpenError>) {
    if key !in objects then Err(ObjectNotFound)
    else
      var blob := objects[key];
      if range == None then Ok(blob)
      else
        var (first, last) := range.value;
        if first >= |blob| || last < first then Err(RangeRejected)
        else Ok(blob[first..Least(last + 1, |blob|)])
  }

  /** Object storage answers the header it is sent as section 14.1.2 of RFC 9110 asks. */
  lemma ObjectStoreServesHeader(objects: map<Key, Blob>, key: Key, first: nat, last: nat)
    requires key in objects && first <= last
    ensures var blob := objects[key];
      var spec := SpecOf(Decimal.Print(first), Decimal.Print(last));
      match ObjectBytes(objects, key, Some((first, last)))
      case Err(e) => e == RangeRejected && !IsSatisfiable(spec, |blob|)
      case Ok(data) =>
        && data != [] && first + |data| <= |blob| && data == blob[first..first + |data|]
        && forall pos: nat :: first <= pos < first + |data| <==> Selects(spec, |blob|, pos)
  {
    Decimal.ValueOfPrint(first);
    Decimal.ValueOfPrint(last);
  }

  /** The stores as values. */
  datatype Stores = Stores(backend: Backend, objects: map<Key, Blob>, files: map<Key, Blob>)

  /** Object storage first when it is configured, the legacy files when it has no such object. */
  function DownloadBytes(stores: Stores, key: Key, range: Option<(nat, nat)>): (r: Result<Blob, OpenError>) {
    if stores.backend.S3Backend? && ObjectBytes(stores.objects, key, range) != Err(ObjectNotFound)
    then ObjectBytes(stores.objects, key, range)
    else FilesystemBytes(stores.files, key, range)
  }

  /** The blob downloads of a key are served from. */
  function Stored(stores: Stores, key: Key): (r: Option<Blob>) {
    if stores.backend.S3Backend? && key in stores.objects then Some(stores.objects[key])
    else if key in stores.files then Some(stores.files[key])
    else None
  }

  class FilesystemStorage {
    var files: map<Key, Blob>

    constructor ()
      ensures files == map[]
    {
      files := map[];
    }

    /** Writes the chunks of an upload one after the other into a new file. */
    method PutUploadedFile(key: Key, chunks: seq<Blob>)
      modifies this
      ensures files == old(files)[key := Flatten(chunks)]
    {
      files := files[key := []];
      var i := 0;
      assert chunks[..0] == [];
      while i < |chunks|
        invariant 0 <= i <= |chunks|
        invariant files == old(files)[key := Flatten(chunks[..i])]
      {
        FlattenSnoc(chunks[..i], chunks[i]);
        assert chunks[..i + 1] == chunks[..i] + [chunks[i]];
        files := files[key := files[key] + chunks[i]];
        i := i + 1;
      }
      assert chunks[..i] == chunks;
    }

    method Open(key: Key, range: Option<(nat, nat)>) returns (r: Result<FileHandle, OpenError>)
      ensures match FilesystemBytes(files, key, range)
        case Err(e) => r == Err(e)
        case Ok(data) => r.Ok? && fresh(r.value) && !r.value.closed && r.value.Rest() == data
    {
      if key !in files {
        return Err(ObjectNotFound);
      }
      var handle := new FileHandle(files[key], 0);
      if range.Some? {
        handle.pos := range.value.0;
      }
      r := Ok(handle);
    }

    /** A failing `unlink` goes unnoticed and leaves the file. */
    method Delete(key: Key, unlinkFails: bool)
      modifies this
      ensures files == if unlinkFails then old(files) else old(files) - {key}
    {
      if unlinkFails {
        return;
      }
      files := files - {key};
    }
  }

  /** How one upload ends: it raises and leaves something or nothing, or it stores an object. */
  datatype UploadOutcome =
    | UploadRaised(left: Option<Blob>)
    | Uploaded(stored: Blob, sizeQueryRaises: bool)

  class S3Storage {
    var objects: map<Key, Blob>

    constructor ()
      ensures objects == map[]
    {
      objects := map[];
    }

    method PutUploadedFile(key: Key, data: Blob)
      modifies this
      ensures objects == old(objects)[key := data]
    {
      objects := objects[key := data];
    }

    method Open(key: Key, range: Option<(nat, nat)>) returns (r: Result<FileHandle, OpenError>)
      ensures match ObjectBytes(objects, key, range)
        case Err(e) => r == Err(e)
        case Ok(data) => r.Ok? && fresh(r.value) && !r.value.closed && r.value.Rest() == data
    {
      if key !in objects {
        return Err(ObjectNotFound);
      }
      var body := objects[key];
      if range.Some? {
        var (first, last) := range.value;
        if first >= |body| || last < first {
          return Err(RangeRejected);
        }
        body := body[first..Least(last + 1, |body|)];
      }
      var handle := new FileHandle(body, 0);
      r := Ok(handle);
    }

    /** An upload whose end the environment decides; `raised` reports an exception. */
    method UploadFromPath(key: Key, outcome: UploadOutcome) returns (raised: bool)
      modifies this
      ensures raised <==> outcome.UploadRaised?
      ensures objects == match outcome
        case Uploaded(stored, _) => old(objects)[key := stored]
        case UploadRaised(Some(left)) => old(objects)[key := left]
        case UploadRaised(None) => old(objects)
    {
      match outcome
      case Uploaded(stored, _) =>
        objects := objects[key := stored];
        raised := false;
      case UploadRaised(left) =>
        if left.Some? {
          objects := objects[key := left.value];
        }
        raised := true;
    }

    method Delete(key: Key)
      modifies this
      ensures objects == old(objects) - {key}
    {
      objects := objects - {key};
    }
  }

  /**
   * The answer of the download endpoint to a user who may read the attachment. A server error is an exception
   * nobody catches: a bound `int` cannot read, or a range the object store refuses.
   */
  datatype Answer =
    | NotFound
    | Refused(total: nat)
    | ServerError
    | Whole(contentLength: int, body: Blob)
    | Part(first: nat, last: nat, total: nat, contentLength: int, body: Blob)

  function RangeOf(parsed: Parsed): (r: Option<(nat, nat)>) {
    if parsed.Bytes? then Some((parsed.first, parsed.last)) else None
  }

  function AnswerFor(stores: Stores, key: Key, size: Size, header: Option<string>): (r: Answer) {
    AnswerTo(stores, key, size, ParseSingleRange(header, size))
  }

  function AnswerTo(stores: Stores, key: Key, size: Size, parsed: Parsed): (r: Answer) {
    if parsed.NotSatisfiable? then Refused(size)
    else if parsed.Raised? then ServerError
    else
      match DownloadBytes(stores, key, RangeOf(parsed))
      case Err(ObjectNotFound) => NotFound
      case Err(RangeRejected) => ServerError
      case Ok(data) =>
        if parsed.Bytes? then
          var length := parsed.last - parsed.first + 1;
          Part(parsed.first, parsed.last, size, length, Budgeted(data, Some(length)))
        else Whole(size, Budgeted(data, Some(size)))
  }

  /** The configured storage with its fallback, and the download endpoint over it. */
  class AttachmentDownloads {
    const backend: Backend
    const s3: S3Storage
    const filesystem: FilesystemStorage

    constructor (backend: Backend, s3: S3Storage, filesystem: FilesystemStorage)
      ensures this.backend == backend && this.s3 == s3 && this.filesystem == filesystem
    {
      this.backend, this.s3, this.filesystem := backend, s3, filesystem;
    }

    ghost function Contents(): Stores
      reads s3, filesystem
    {
      Stores(backend, s3.objects, filesystem.files)
    }

    method OpenAttachmentForDownload(key: Key, range: Option<(nat, nat)>) returns (r: Result<FileHandle, OpenError>)
      ensures match DownloadBytes(Contents(), key, range)
        case Err(e) => r == Err(e)
        case Ok(data) => r.Ok? && fresh(r.value) && !r.value.closed && r.value.Rest() == data
    {
      if backend.FilesystemBackend? {
        r := filesystem.Open(key, range);
      } else {
        r := s3.Open(key, range);
        if r == Err(ObjectNotFound) {
          r := filesystem.Open(key, range);
        }
      }
    }

    /** An upload goes to the configured backend and is what downloads of its key are served from. */
    method PutUploadedFile(key: Key, chunks: seq<Blob>)
      modifies s3, filesystem
      ensures Stored(Contents(), key) == Some(Flatten(chunks))
      ensures forall k | k != key :: Stored(Contents(), k) == Stored(old(Contents()), k)
      ensures backend.S3Backend? ==> filesystem.files == old(filesystem.files)
    {
      if backend.S3Backend? {
        s3.PutUploadedFile(key, Flatten(chunks));
      } else {
        filesystem.PutUploadedFile(key, chunks);
      }
    }

    /** Afterwards nothing is found under the key, unless the file of that key could not be unlinked. */
    method DeleteFromStorage(key: Key, unlinkFails: bool)
      modifies s3, filesystem
      ensures filesystem.files == if unlinkFails then old(filesystem.files) else old(filesystem.files) - {key}
      ensures s3.objects == if backend.S3Backend? then old(s3.objects) - {key} else old(s3.objects)
      ensures (forall range :: DownloadBytes(Contents(), key, range) == Err(ObjectNotFound))
         <==> !(unlinkFails && key in old(filesystem.files))
    {
      if backend.S3Backend? {
        s3.Delete(key);
      }
      filesystem.Delete(key, unlinkFails);
      if key in filesystem.files {
        assert DownloadBytes(Contents(), key, None) == Ok(filesystem.files[key]);
      }
    }

    /** Streams the download; the chunks carry exactly the body of the answer. */
    method Download(key: Key, size: Size, header: Option<string>) returns (answer: Answer, chunks: seq<Blob>)
      ensures answer == AnswerFor(Contents(), key, size, header)
      ensures Contents() == old(Contents())
      ensures Flatten(chunks) == if answer.Whole? || answer.Part? then answer.body else []
      ensures forall c | c in chunks :: 0 < |c| <= STREAM_CHUNK_SIZE
    {
      chunks := [];
      var parsed := ParseSingleRange(header, size);
      if parsed.NotSatisfiable? {
        return Refused(size), [];
      }
      if parsed.Raised? {
        return ServerError, [];
      }
      var attempt := OpenAttachmentForDownload(key, RangeOf(parsed));
      if attempt.Err? {
        return (if attempt.error == ObjectNotFound then NotFound else ServerError), [];
      }
      var contentLength: int := size;
      if parsed.Bytes? {
        contentLength := parsed.last - parsed.first + 1;
      }
      chunks := IterAttachmentChunks(attempt.value, Some(contentLength));
      var body := Flatten(chunks);
      if parsed.Bytes? {
        answer := Part(parsed.first, parsed.last, size, contentLength, body);
      } else {
        answer := Whole(size, body);
      }
    }
  }

  /** The answer a blob deserves, whichever store holds it. */
  function ExactAnswer(blob: Blob, parsed: Parsed): (r: Answer)
    requires parsed.Bytes? ==> parsed.first <= parsed.last < |blob|
  {
    match parsed
    case NotSatisfiable => Refused(|blob|)
    case Raised => ServerError
    case Ignored => Whole(|blob|, blob)
    case Bytes(first, last) => Part(first, last, |blob|, last - first + 1, blob[first..last + 1])
  }

  /**
   * For a blob of the recorded size both backends give the same answer to every header, although one
   * ignores the end of a range and the other does not; the body has the announced Content-Length.
   */
  lemma DownloadIsExact(stores: Stores, key: Key, size: Size, header: Option<string>)
    requires Stored(stores, key).Some? && |Stored(stores, key).value| == size
    ensures var answer := AnswerFor(stores, key, size, header);
      && answer == ExactAnswer(Stored(stores, key).value, ParseSingleRange(header, size))
      && (answer.Whole? || answer.Part? ==> |answer.body| == answer.contentLength)
  {
    AnswerIsExact(stores, key, size, ParseSingleRange(header, size));
  }

  lemma AnswerIsExact(stores: Stores, key: Key, size: Size, parsed: Parsed)
    requires Stored(stores, key).Some? && |Stored(stores, key).value| == size
    requires parsed.Bytes? ==> parsed.first <= parsed.last < size
    ensures AnswerTo(stores, key, size, parsed) == ExactAnswer(Stored(stores, key).value, parsed)
  {
    var blob := Stored(stores, key).value;
    if parsed.Bytes? {
      var (first, last) := (parsed.first, parsed.last);
      assert blob[first..][..last - first + 1] == blob[first..last + 1];
      assert blob[first..last + 1][..last - first + 1] == blob[first..last + 1];
    }
  }
}
