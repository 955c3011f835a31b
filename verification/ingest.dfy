/**
 The batch upload endpoint `ingest_batch`: for each uploaded file, in
 order, decode its bytes by the file name's suffix, mint a task id, build
 the ingest payload, enqueue the task and record a receipt; any failure
 turns the whole call into an error response.

 The byte decoders, the JSON round trip, the uuid source and the task
 queue are parameters: only what the endpoint does with them is modelled.
 */
module BatchIngest {
  import opened Wrappers

  newtype byte = x: int | 0 <= x < 256

  /** An uploaded file: its name (absent when the client sent none) and bytes. */
  datatype Upload = Upload(filename: Option<string>, data: seq<byte>)

  /** How the bytes of a file become text. */
  datatype Decoding = StrictUtf8 | JsonRoundTrip | LossyUtf8

  /** The decoders the endpoint calls: strict UTF-8 (which can fail), UTF-8
      dropping undecodable bytes, and parsing then re-serialising JSON (which
      can fail). Failures carry the exception's message. */
  datatype Codec = Codec(
    strictUtf8: seq<byte> -> Result<string, string>,
    lossyUtf8: seq<byte> -> string,
    jsonRoundTrip: string -> Result<string, string>)

  predicate EndsWith(s: string, suffix: string) {
    |suffix| <= |s| && s[|s| - |suffix|..] == suffix
  }

  /** The suffix dispatch: ".txt" is tried first, then ".json". */
  function ChooseDecoding(filename: string): (d: Decoding)
    ensures d == StrictUtf8 <==> EndsWith(filename, ".txt")
    ensures d == JsonRoundTrip <==> !EndsWith(filename, ".txt") && EndsWith(filename, ".json")
    ensures d == LossyUtf8 <==> !EndsWith(filename, ".txt") && !EndsWith(filename, ".json")
  {
    if EndsWith(filename, ".txt") then StrictUtf8
    else if EndsWith(filename, ".json") then JsonRoundTrip
    else LossyUtf8
  }

  /** No name ends in both suffixes, so the order of the two tests does not
      change which decoder a name gets. */
  lemma SuffixesExclusive(filename: string)
    ensures !(EndsWith(filename, ".txt") && EndsWith(filename, ".json"))
  {
    if EndsWith(filename, ".json") {
      var n := |filename|;
      assert filename[n - 4..][3] == filename[n - 5..][4] == 'n';
    }
  }

  /** The text a decoding gives, or the message of the exception it raises. */
  function Decode(codec: Codec, d: Decoding, data: seq<byte>): Result<string, string> {
    match d
    case StrictUtf8 => codec.strictUtf8(data)
    case JsonRoundTrip =>
      (match codec.strictUtf8(data)
       case Success(t) => codec.jsonRoundTrip(t)
       case Failure(e) => Failure(e))
    case LossyUtf8 => Success(codec.lossyUtf8(data))
  }

  /** A file whose name ends in neither suffix always decodes, to the lossy
      UTF-8 text of its bytes. */
  lemma OtherNamesDecode(codec: Codec, name: string, data: seq<byte>)
    requires !EndsWith(name, ".txt") && !EndsWith(name, ".json")
    ensures Decode(codec, ChooseDecoding(name), data) == Success(codec.lossyUtf8(data))
  {
  }

  /** A `.txt` or `.json` file whose bytes are not valid UTF-8 fails to decode,
      with the strict decoder's message. */
  lemma StrictNamesNeedUtf8(codec: Codec, name: string, data: seq<byte>)
    requires EndsWith(name, ".txt") || EndsWith(name, ".json")
    requires codec.strictUtf8(data).Failure?
    ensures Decode(codec, ChooseDecoding(name), data) == Failure(codec.strictUtf8(data).error)
  {
  }

  /** A `.json` file that decodes but does not parse fails with the parser's
      message; one that parses decodes to the re-serialised text. */
  lemma JsonNamesRoundTrip(codec: Codec, name: string, data: seq<byte>)
    requires EndsWith(name, ".json") && codec.strictUtf8(data).Success?
    ensures Decode(codec, ChooseDecoding(name), data) == codec.jsonRoundTrip(codec.strictUtf8(data).value)
  {
    SuffixesExclusive(name);
  }

  /** A `.txt` file decodes to exactly what strict UTF-8 gives. */
  lemma TextNamesStrict(codec: Codec, name: string, data: seq<byte>)
    requires EndsWith(name, ".txt")
    ensures Decode(codec, ChooseDecoding(name), data) == codec.strictUtf8(data)
  {
  }

  predicate IsHexDigit(c: char) {
    '0' <= c <= '9' || 'a' <= c <= 'f'
  }

  /** `uuid4().hex`: 32 lower-case hexadecimal digits. */
  type HexDigest = s: string | |s| == 32 && forall k :: 0 <= k < |s| ==> IsHexDigit(s[k])
    witness "00000000000000000000000000000000"

  const TaskPrefix: string := "ingest_"

  /** The task id: the prefix "ingest_" followed by the first 12 digits of a
      fresh uuid's hexadecimal form. */
  function TaskId(u: HexDigest): (id: string)
    ensures |id| == |TaskPrefix| + 12
    ensures id[..|TaskPrefix|] == TaskPrefix
    ensures forall k :: |TaskPrefix| <= k < |id| ==> IsHexDigit(id[k])
    ensures id[|TaskPrefix|..] == u[..12]
  {
    TaskPrefix + u[..12]
  }

  /** Two ids agree exactly when the uuids they were cut from share their
      first 12 digits. */
  lemma TaskIdsAgree(u: HexDigest, v: HexDigest)
    ensures TaskId(u) == TaskId(v) <==> u[..12] == v[..12]
  {
    if TaskId(u) == TaskId(v) {
      assert TaskId(u)[|TaskPrefix|..] == TaskId(v)[|TaskPrefix|..];
    }
  }

  const ContentLimit: nat := 10000

  /** The payload content: the first 10 000 characters of the text, or all of
      it when it is shorter. */
  function Truncate(text: string): (r: string)
    ensures |r| <= ContentLimit && |r| <= |text|
    ensures r == text[..|r|]
    ensures |r| == if |text| <= ContentLimit then |text| else ContentLimit
  {
    if |text| <= ContentLimit then text else text[..ContentLimit]
  }

  /** Truncating a truncated text changes nothing. */
  lemma TruncateIdempotent(text: string)
    ensures Truncate(Truncate(text)) == Truncate(text)
  {
  }

  datatype Metadata = Metadata(source: string, filename: string, size: nat)

  datatype Payload = Payload(title: string, content: string, metadata: Metadata)

  /** The arguments of one `enqueue` call. */
  datatype Task = Task(kind: string, id: string, payload: Payload)

  /** One entry of the response's "results" list. */
  datatype Receipt = Receipt(filename: string, taskId: string, status: string)

  datatype BatchResponse = BatchResponse(totalFiles: nat, queued: nat, results: seq<Receipt>)

  /** The endpoint's answer: the batch response, or the HTTP error raised
      from a caught exception. */
  datatype Reply = Accepted(response: BatchResponse) | ServerError(status: nat, detail: string)

  /** The message of the exception raised by calling `.endswith` on a missing name. */
  const MissingNameError: string := "'NoneType' object has no attribute 'endswith'"

  /** The task built for one file, using the `u`-th uuid, or the message of
      the exception that building it raises. */
  function PrepareTask(file: Upload, codec: Codec, u: HexDigest): (r: Result<Task, string>)
    ensures file.filename.None? ==> r == Failure(MissingNameError)
    ensures file.filename.Some? && r.Failure? ==>
      Decode(codec, ChooseDecoding(file.filename.value), file.data) == Failure(r.error)
    ensures file.filename.Some? ==>
      (r.Success? <==> Decode(codec, ChooseDecoding(file.filename.value), file.data).Success?)
    ensures r.Success? ==>
      var name := file.filename.value;
      var text := Decode(codec, ChooseDecoding(name), file.data).value;
      var t := r.value;
      && t.kind == "ingest"
      && t.id == TaskId(u)
      && t.payload.title == name
      && |t.payload.content| <= ContentLimit
      && |t.payload.content| <= |text|
      && t.payload.content == text[..|t.payload.content|]
      && |t.payload.content| == (if |text| <= ContentLimit then |text| else ContentLimit)
      && t.payload.metadata == Metadata("batch_upload", name, |file.data|)
  {
    match file.filename
    case None => Failure(MissingNameError)
    case Some(name) =>
      match Decode(codec, ChooseDecoding(name), file.data)
      case Failure(e) => Failure(e)
      case Success(text) =>
        Success(Task("ingest", TaskId(u), Payload(name, Truncate(text), Metadata("batch_upload", name, |file.data|))))
  }

  /** What processing the `i`-th file does: build its task, then enqueue it;
      `enqueueError` gives the message of the exception the queue raises for
      a task, if it does. */
  function Attempt(files: seq<Upload>, i: nat, codec: Codec, uuids: nat -> HexDigest,
                   enqueueError: Task -> Option<string>): (r: Result<Task, string>)
    requires i < |files|
    ensures r.Success? <==> PrepareTask(files[i], codec, uuids(i)).Success?
                            && enqueueError(PrepareTask(files[i], codec, uuids(i)).value).None?
    ensures r.Success? ==> r == PrepareTask(files[i], codec, uuids(i))
    ensures r.Failure? ==>
      r.error == if PrepareTask(files[i], codec, uuids(i)).Failure?
                 then PrepareTask(files[i], codec, uuids(i)).error
                 else enqueueError(PrepareTask(files[i], codec, uuids(i)).value).value
  {
    match PrepareTask(files[i], codec, uuids(i))
    case Failure(e) => Failure(e)
    case Success(t) =>
      match enqueueError(t)
      case Some(e) => Failure(e)
      case None => Success(t)
  }

  function ReceiptFor(t: Task): Receipt {
    Receipt(t.payload.title, t.id, "queued")
  }

  /** `ingest_batch`. The tasks handed to the queue are returned alongside
      the reply; file `i` uses the `i`-th uuid drawn. */
  method IngestBatch(files: seq<Upload>, codec: Codec, uuids: nat -> HexDigest,
                     enqueueError: Task -> Option<string>)
    returns (reply: Reply, queue: seq<Task>)
    ensures |queue| <= |files|
    ensures forall i :: 0 <= i < |queue| ==> Attempt(files, i, codec, uuids, enqueueError) == Success(queue[i])
    ensures reply.Accepted? <==> |queue| == |files|
    ensures reply.ServerError? ==>
      && Attempt(files, |queue|, codec, uuids, enqueueError).Failure?
      && reply == ServerError(500, Attempt(files, |queue|, codec, uuids, enqueueError).error)
    ensures reply.Accepted? ==>
      && reply.response.totalFiles == |files|
      && reply.response.queued == |files|
      && |reply.response.results| == |files|
      && forall i :: 0 <= i < |files| ==>
           && files[i].filename.Some?
           && reply.response.results[i] == Receipt(files[i].filename.value, queue[i].id, "queued")
  {
    var results: seq<Receipt> := [];
    queue := [];
    var i := 0;
    while i < |files|
      invariant i <= |files| && |queue| == i && |results| == i
      invariant forall k :: 0 <= k < i ==> Attempt(files, k, codec, uuids, enqueueError) == Success(queue[k])
      invariant forall k :: 0 <= k < i ==> results[k] == ReceiptFor(queue[k])
    {
      var attempt := Attempt(files, i, codec, uuids, enqueueError);
      if attempt.Failure? {
        return ServerError(500, attempt.error), queue;
      }
      var task := attempt.value;
      queue := queue + [task];
      results := results + [ReceiptFor(task)];
      i := i + 1;
    }
    forall k | 0 <= k < |files|
      ensures files[k].filename.Some? && results[k] == Receipt(files[k].filename.value, queue[k].id, "queued")
    {
      QueuedTaskShape(files, codec, uuids, enqueueError, queue, k);
    }
    reply := Accepted(BatchResponse(|files|, |results|, results));
  }

  /** Every queued task belongs to its file: its id has the task shape, its
      title and metadata name the file, and its size is the upload's byte count. */
  lemma QueuedTaskShape(files: seq<Upload>, codec: Codec, uuids: nat -> HexDigest,
                        enqueueError: Task -> Option<string>, queue: seq<Task>, i: nat)
    requires |queue| <= |files| && i < |queue|
    requires Attempt(files, i, codec, uuids, enqueueError) == Success(queue[i])
    ensures files[i].filename.Some?
    ensures queue[i].kind == "ingest"
    ensures queue[i].id[..|TaskPrefix|] == TaskPrefix && |queue[i].id| == |TaskPrefix| + 12
    ensures queue[i].payload.title == files[i].filename.value == queue[i].payload.metadata.filename
    ensures queue[i].payload.metadata.source == "batch_upload"
    ensures queue[i].payload.metadata.size == |files[i].data|
    ensures |queue[i].payload.content| <= ContentLimit
  {
  }
}
