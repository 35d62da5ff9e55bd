/**
 * The HTTP side of the service (api/main.py): level validation, the
 * size-bounded upload, job submission, and the status and download reads.
 */
module Api {
  import opened Common
  import opened Text
  import opened Jobs
  import opened Storage

  /** The error a request ends with: an `HTTPException`, or an exception the handler does not catch (HTTP 500). */
  datatype ApiError = HttpError(status: nat, detail: string) | Unhandled

  const LevelError := HttpError(400, "Invalid level. Use: high|medium|low")
  const ExtensionError := HttpError(400, "Only .pdf files are supported")
  const JobNotFound := HttpError(404, "Job not found")
  const NotFinished := HttpError(409, "Job not finished")
  const OutputMissing := HttpError(404, "Output missing")

  function TooLarge(maxBytes: int): ApiError {
    HttpError(413, "File too large. Max is " + Decimal(maxBytes) + " bytes.")
  }

  /** Configuration defaults: 200 MiB upload ceiling, six hours of retention. */
  const DefaultMaxUploadBytes: int := 200 * 1024 * 1024
  const DefaultJobTtlSeconds: int := 21600

  /** The artifact paths of a job, derived from its identifier alone. */
  function InPath(jobId: string): Path { InDir + [jobId + ".pdf"] }
  function OutPath(jobId: string): Path { OutDir + [jobId + ".pdf"] }
  function MetaPath(jobId: string): Path { MetaDir + [jobId + ".json"] }

  lemma SuffixCancels(a: string, b: string, suffix: string)
    requires a + suffix == b + suffix
    ensures a == b
  {
    assert |a| == |b|;
    assert a == (a + suffix)[..|a|];
    assert b == (b + suffix)[..|b|];
  }

  /** No two kinds of artifact share a path, whatever the job ids. */
  lemma ArtifactKindsDistinct(a: string, b: string)
    ensures InPath(a) != OutPath(b) && InPath(a) != MetaPath(b) && OutPath(a) != MetaPath(b)
  {
    assert InPath(a)[0] == "in" && OutPath(b)[0] == "out" && MetaPath(b)[0] == "meta" && OutPath(a)[0] == "out";
    assert InPath(a)[0] != OutPath(b)[0] && InPath(a)[0] != MetaPath(b)[0] && OutPath(a)[0] != MetaPath(b)[0];
  }

  /** Distinct jobs never share an artifact. */
  lemma {:induction false} JobPathsDistinct(a: string, b: string)
    requires a != b
    ensures InPath(a) != InPath(b) && OutPath(a) != OutPath(b) && MetaPath(a) != MetaPath(b)
  {
    assert a + ".pdf" != b + ".pdf" by {
      if a + ".pdf" == b + ".pdf" {
        SuffixCancels(a, b, ".pdf");
      }
    }
    assert a + ".json" != b + ".json" by {
      if a + ".json" == b + ".json" {
        SuffixCancels(a, b, ".json");
      }
    }
    assert InPath(a)[1] != InPath(b)[1] && OutPath(a)[1] != OutPath(b)[1] && MetaPath(a)[1] != MetaPath(b)[1];
  }

  // ---------------------------------------------------------------------
  // Quality level
  // ---------------------------------------------------------------------

  /** `(level or "medium").lower().strip()`: a missing or empty level reads as "medium". */
  function NormalizedLevel(level: Option<string>): string {
    var given := if level.None? || level.value == "" then "medium" else level.value;
    Strip(Lower(given))
  }

  /** `_safe_level`: accepts exactly the three level names once normalised, and rejects anything else with 400. */
  function SafeLevel(level: Option<string>): (r: Result<Level, ApiError>)
    ensures r.Ok? <==> NormalizedLevel(level) in {"high", "medium", "low"}
    ensures r.Ok? ==> LevelName(r.value) == NormalizedLevel(level)
    ensures r.Err? ==> r.error == LevelError
  {
    var n := NormalizedLevel(level);
    if n == "high" then Ok(High)
    else if n == "medium" then Ok(Medium)
    else if n == "low" then Ok(Low)
    else Err(LevelError)
  }

  lemma NormalizedDefaults()
    ensures NormalizedLevel(None) == "medium" && NormalizedLevel(Some("")) == "medium"
  {
    assert Strip(Lower("medium")) == "medium" by {
      LowerUnchanged("medium");
      StripUnchanged("medium");
    }
  }

  lemma NormalizedNames(l: Level)
    ensures NormalizedLevel(Some(LevelName(l))) == LevelName(l)
  {
    var name := LevelName(l);
    assert Strip(Lower(name)) == name by {
      LowerUnchanged(name);
      StripUnchanged(name);
    }
    NormalizedGiven(name);
  }

  lemma LowerExample()
    ensures Lower(" HiGh\t") == " high\t"
  {
    var lowered := Lower(" HiGh\t");
    assert |lowered| == 6;
    assert lowered[0] == ' ' && lowered[1] == 'h' && lowered[2] == 'i';
    assert lowered[3] == 'g' && lowered[4] == 'h' && lowered[5] == '\t';
  }

  lemma StripExample()
    ensures Strip(" high\t") == "high"
  {
    assert " high\t" == " " + "high" + "\t";
    StripSurrounded(" ", "high", "\t");
  }

  lemma NormalizedGiven(level: string)
    requires level != ""
    ensures NormalizedLevel(Some(level)) == Strip(Lower(level))
  {
  }

  lemma NormalizedMixedCase()
    ensures NormalizedLevel(Some(" HiGh\t")) == "high"
  {
    assert Strip(Lower(" HiGh\t")) == "high" by {
      LowerExample();
      StripExample();
    }
    NormalizedGiven(" HiGh\t");
  }

  lemma NormalizedUnknown()
    ensures NormalizedLevel(Some("ultra")) == "ultra"
  {
    assert Strip(Lower("ultra")) == "ultra" by {
      LowerUnchanged("ultra");
      StripUnchanged("ultra");
    }
    NormalizedGiven("ultra");
  }

  /** A missing or empty level field selects the balanced level. */
  lemma SafeLevelDefault()
    ensures SafeLevel(None) == Ok(Medium)
    ensures SafeLevel(Some("")) == Ok(Medium)
  {
    NormalizedDefaults();
    assert "medium" != "high";
  }

  /** Every level the service stores is accepted back as itself. */
  lemma SafeLevelAcceptsNames(l: Level)
    ensures SafeLevel(Some(LevelName(l))) == Ok(l)
  {
    NormalizedNames(l);
    assert "high" != "medium" && "high" != "low" && "medium" != "low";
  }

  /** Case and surrounding whitespace do not matter, and an unknown name is refused. */
  lemma SafeLevelNormalises()
    ensures SafeLevel(Some(" HiGh\t")) == Ok(High)
    ensures SafeLevel(Some("ultra")) == Err(LevelError)
  {
    NormalizedMixedCase();
    NormalizedUnknown();
    assert "ultra" != "high" && "ultra" != "medium" && "ultra" != "low";
  }

  // ---------------------------------------------------------------------
  // Size-bounded upload
  // ---------------------------------------------------------------------

  /** What successive `upload.read(1 MiB)` calls return; once the list is used up every read returns `b""`. */
  type Chunk = seq<byte>

  function ReadChunk(upload: seq<Chunk>, i: nat): Chunk {
    if i < |upload| then upload[i] else []
  }

  /** The chunks the save loop consumes: everything before the first empty read. */
  function Received(upload: seq<Chunk>): (r: seq<Chunk>)
    ensures |r| <= |upload| && r == upload[..|r|]
    ensures forall k :: 0 <= k < |r| ==> r[k] != []
    ensures |r| == |upload| || upload[|r|] == []
  {
    if |upload| == 0 || upload[0] == [] then [] else [upload[0]] + Received(upload[1..])
  }

  /** The bytes of a list of chunks, in order. */
  function Concat(chunks: seq<Chunk>): seq<byte> {
    if chunks == [] then [] else Concat(chunks[..|chunks| - 1]) + chunks[|chunks| - 1]
  }

  lemma {:induction false} ConcatAppend(a: seq<Chunk>, b: seq<Chunk>)
    ensures Concat(a + b) == Concat(a) + Concat(b)
    decreases |b|
  {
    if b == [] {
      assert a + b == a;
    } else {
      var init := b[..|b| - 1];
      assert (a + b)[..|a + b| - 1] == a + init;
      assert (a + b)[|a + b| - 1] == b[|b| - 1];
      ConcatAppend(a, init);
    }
  }

  /** The running byte counter stays within the ceiling after every chunk. */
  predicate WithinLimit(chunks: seq<Chunk>, maxBytes: int) {
    forall k :: 1 <= k <= |chunks| ==> |Concat(chunks[..k])| <= maxBytes
  }

  /**
   * Checking the running counter after every chunk accepts exactly the
   * uploads whose total is within the ceiling (or that are empty).
   */
  lemma WithinLimitIffTotal(chunks: seq<Chunk>, maxBytes: int)
    ensures WithinLimit(chunks, maxBytes) <==> (chunks == [] || |Concat(chunks)| <= maxBytes)
  {
    if chunks != [] && |Concat(chunks)| <= maxBytes {
      forall k | 1 <= k <= |chunks|
        ensures |Concat(chunks[..k])| <= maxBytes
      {
        assert chunks == chunks[..k] + chunks[k..];
        ConcatAppend(chunks[..k], chunks[k..]);
      }
    }
    if chunks != [] && WithinLimit(chunks, maxBytes) {
      assert chunks[..|chunks|] == chunks;
    }
  }

  /** One more chunk: the counter grows by its length and the limit check extends to it. */
  lemma WithinLimitExtend(done: seq<Chunk>, chunk: Chunk, maxBytes: int)
    requires WithinLimit(done, maxBytes)
    ensures |Concat(done + [chunk])| == |Concat(done)| + |chunk|
    ensures WithinLimit(done + [chunk], maxBytes) <==> |Concat(done + [chunk])| <= maxBytes
  {
    var upto := done + [chunk];
    assert upto[..|upto| - 1] == done;
    forall k | 1 <= k <= |done|
      ensures upto[..k] == done[..k]
    {
    }
    assert upto[..|upto|] == upto;
  }

  /** Reading chunk `i` of the upload, when none before it was empty, consumes one more chunk of `Received`. */
  lemma ReceivedStep(upload: seq<Chunk>, i: nat)
    requires i <= |Received(upload)| && Received(upload)[..i] == upload[..i]
    ensures ReadChunk(upload, i) == [] ==> Received(upload) == upload[..i]
    ensures ReadChunk(upload, i) != [] ==>
              && i < |Received(upload)| && i < |upload|
              && Received(upload)[..i + 1] == upload[..i + 1] == upload[..i] + [upload[i]]
  {
  }

  /** Every prefix of a stream that stayed within the ceiling stayed within it too. */
  lemma WithinLimitPrefix(chunks: seq<Chunk>, i: nat, j: nat, maxBytes: int)
    requires j <= i <= |chunks| && WithinLimit(chunks[..i], maxBytes)
    ensures WithinLimit(chunks[..j], maxBytes)
  {
    forall k | 1 <= k <= j
      ensures chunks[..i][..k] == chunks[..j][..k]
    {
    }
  }

  /**
   * How many chunks are accepted before the first one that takes the count
   * past `maxBytes` (all of them when none does).
   */
  function WithinPrefix(chunks: seq<Chunk>, maxBytes: int): (r: nat)
    ensures r <= |chunks| && WithinLimit(chunks[..r], maxBytes)
    ensures r < |chunks| ==> !WithinLimit(chunks[..r + 1], maxBytes)
    decreases |chunks|
  {
    if WithinLimit(chunks, maxBytes) then
      assert chunks[..|chunks|] == chunks; |chunks|
    else
      var init := chunks[..|chunks| - 1];
      var r := WithinPrefix(init, maxBytes);
      assert init[..r] == chunks[..r];
      assert r < |init| ==> init[..r + 1] == chunks[..r + 1];
      assert r == |init| ==> chunks[..r + 1] == chunks;
      r
  }

  /** The chunk that first breaks the ceiling is the one `WithinPrefix` stops before. */
  lemma WithinPrefixAt(chunks: seq<Chunk>, i: nat, maxBytes: int)
    requires i < |chunks| && WithinLimit(chunks[..i], maxBytes) && !WithinLimit(chunks[..i + 1], maxBytes)
    ensures WithinPrefix(chunks, maxBytes) == i
  {
    var r := WithinPrefix(chunks, maxBytes);
    if r > i {
      WithinLimitPrefix(chunks, r, i + 1, maxBytes);
    } else if r < i {
      WithinLimitPrefix(chunks, i, r + 1, maxBytes);
    }
  }

  /** The bytes a rejected upload leaves in `dst` when it cannot be deleted. */
  function KeptBytes(upload: seq<Chunk>, maxBytes: int): seq<byte> {
    Concat(Received(upload)[..WithinPrefix(Received(upload), maxBytes)])
  }

  /**
   * What a rejected upload leaves behind is the start of what was sent and
   * never more than the ceiling: the chunk that broke it is not written.
   */
  lemma KeptBytesWithinLimit(upload: seq<Chunk>, maxBytes: int)
    ensures KeptBytes(upload, maxBytes) <= Concat(Received(upload))
    ensures WithinPrefix(Received(upload), maxBytes) > 0 ==> |KeptBytes(upload, maxBytes)| <= maxBytes
  {
    var got := Received(upload);
    var r := WithinPrefix(got, maxBytes);
    assert got == got[..r] + got[r..];
    ConcatAppend(got[..r], got[r..]);
    WithinLimitIffTotal(got[..r], maxBytes);
  }

  /**
   * `_save_upload_limited`: streams the chunks into `dst` while counting
   * them, and on the first chunk that takes the count past `maxBytes`
   * deletes `dst` and fails with 413. The count is the only measure used.
   * A failure to delete is swallowed: a path in `undeletable` keeps the
   * chunks written before the rejected one, and 413 is raised all the same.
   */
  method SaveUploadLimited(fs: ArtifactStore, upload: seq<Chunk>, dst: Path, maxBytes: int, now: real,
                           undeletable: set<Path>)
    returns (r: Result<nat, ApiError>)
    modifies fs
    ensures r.Ok? <==> WithinLimit(Received(upload), maxBytes)
    ensures r.Ok? ==> (&& r.value == |Concat(Received(upload))|
                       && fs.files == old(fs.files)[dst := File(Bytes(Concat(Received(upload))), now)])
    ensures r.Err? ==> r.error == TooLarge(maxBytes)
    ensures r.Err? && dst !in undeletable ==> fs.files == old(fs.files) - {dst}
    ensures r.Err? && dst in undeletable ==>
              fs.files == old(fs.files)[dst := File(Bytes(KeptBytes(upload, maxBytes)), now)]
  {
    ghost var got := Received(upload);
    var written := 0;
    fs.Write(dst, Bytes([]), now);
    var i := 0;
    while true
      invariant i <= |got| && got[..i] == upload[..i]
      invariant written == |Concat(upload[..i])|
      invariant WithinLimit(upload[..i], maxBytes)
      invariant fs.files == old(fs.files)[dst := File(Bytes(Concat(upload[..i])), now)]
      decreases |upload| - i
    {
      var chunk := ReadChunk(upload, i);
      ReceivedStep(upload, i);
      if chunk == [] {
        break;
      }
      WithinLimitExtend(upload[..i], chunk, maxBytes);
      written := written + |chunk|;
      if written > maxBytes {
        WithinPrefixAt(got, i, maxBytes);
        if dst !in undeletable {
          fs.Remove(dst);
        }
        return Err(TooLarge(maxBytes));
      }
      fs.Append(dst, chunk, now);
      i := i + 1;
    }
    return Ok(written);
  }

  /** The accepted byte count respects the ceiling whenever anything was uploaded. */
  lemma SavedCountWithinLimit(upload: seq<Chunk>, maxBytes: int)
    requires WithinLimit(Received(upload), maxBytes)
    ensures Received(upload) != [] ==> |Concat(Received(upload))| <= maxBytes
  {
    WithinLimitIffTotal(Received(upload), maxBytes);
  }

  // ---------------------------------------------------------------------
  // Submission
  // ---------------------------------------------------------------------

  /** `file.filename.lower().endswith(".pdf")`. */
  predicate HasPdfExtension(filename: string) {
    EndsWith(Lower(filename), ".pdf")
  }

  /** The record written when a job is accepted. */
  function InitialRecord(jobId: string, level: Level, inputBytes: nat): JobRecord {
    JobRecord(jobId, Queued, level, InPath(jobId), OutPath(jobId), inputBytes, None, None, None)
  }

  /**
   * `compress_pdf`: checks the extension, then the level, then saves the
   * upload under the job's input path and writes the queued record. The
   * enqueue call itself is not modelled; the entry it is given is returned.
   */
  method CompressPdf(fs: ArtifactStore, filename: string, level: Option<string>, jobId: string,
                     upload: seq<Chunk>, maxBytes: int, ttlSeconds: int, now: real, undeletable: set<Path>)
    returns (r: Result<QueueEntry, ApiError>)
    modifies fs
    ensures !HasPdfExtension(filename) ==> r == Err(ExtensionError) && fs.files == old(fs.files)
    ensures HasPdfExtension(filename) && SafeLevel(level).Err? ==>
              r == Err(LevelError) && fs.files == old(fs.files)
    ensures HasPdfExtension(filename) && SafeLevel(level).Ok? && !WithinLimit(Received(upload), maxBytes) ==>
              && r == Err(TooLarge(maxBytes))
              && fs.files == if InPath(jobId) in undeletable
                             then old(fs.files)[InPath(jobId) := File(Bytes(KeptBytes(upload, maxBytes)), now)]
                             else old(fs.files) - {InPath(jobId)}
    ensures HasPdfExtension(filename) && SafeLevel(level).Ok? && WithinLimit(Received(upload), maxBytes) ==>
              var data := Concat(Received(upload));
              var lvl := SafeLevel(level).value;
              && r == Ok(QueueEntry(jobId, LevelName(lvl), InPath(jobId), OutPath(jobId), MetaPath(jobId), ttlSeconds))
              && fs.files == old(fs.files)[InPath(jobId) := File(Bytes(data), now)]
                                          [MetaPath(jobId) := File(Record(InitialRecord(jobId, lvl, |data|)), now)]
  {
    if !HasPdfExtension(filename) {
      return Err(ExtensionError);
    }
    var checked := SafeLevel(level);
    if checked.Err? {
      return Err(checked.error);
    }
    var lvl := checked.value;
    var inPath, outPath, metaPath := InPath(jobId), OutPath(jobId), MetaPath(jobId);
    var saved := SaveUploadLimited(fs, upload, inPath, maxBytes, now, undeletable);
    if saved.Err? {
      return Err(saved.error);
    }
    fs.Write(metaPath, Record(InitialRecord(jobId, lvl, saved.value)), now);
    return Ok(QueueEntry(jobId, LevelName(lvl), inPath, outPath, metaPath, ttlSeconds));
  }

  // ---------------------------------------------------------------------
  // Reads
  // ---------------------------------------------------------------------

  /**
   * `job_status`: 404 exactly when the record file is missing, otherwise the
   * stored record as it is; a record file that cannot be parsed escapes as
   * an unhandled error.
   */
  function JobStatus(files: Files, jobId: string): (r: Result<JobRecord, ApiError>)
    ensures r == Err(JobNotFound) <==> MetaPath(jobId) !in files
    ensures MetaPath(jobId) in files && ReadRecord(files, MetaPath(jobId)).None? ==> r == Err(Unhandled)
    ensures r.Ok? <==> ReadRecord(files, MetaPath(jobId)).Some?
    ensures r.Ok? ==> ReadRecord(files, MetaPath(jobId)) == Some(r.value)
  {
    var meta := MetaPath(jobId);
    if meta !in files then Err(JobNotFound)
    else match ReadRecord(files, meta)
      case None => Err(Unhandled)
      case Some(rec) => Ok(rec)
  }

  /** The download response: the output file served as a PDF under a name derived from the job id. */
  datatype FileReply = FileReply(path: Path, mediaType: string, filename: string)

  /**
   * `download`: a missing record gives 404, a record not `done` gives 409,
   * a `done` record whose output file is gone gives 404, and only then is
   * the output served; a record file that cannot be parsed escapes as an
   * unhandled error.
   */
  function Download(files: Files, jobId: string): (r: Result<FileReply, ApiError>)
    ensures r == Err(JobNotFound) <==> MetaPath(jobId) !in files
    ensures MetaPath(jobId) in files && ReadRecord(files, MetaPath(jobId)).None? ==> r == Err(Unhandled)
    ensures r == Err(NotFinished) <==>
              ReadRecord(files, MetaPath(jobId)).Some? && ReadRecord(files, MetaPath(jobId)).value.status != Done
    ensures r == Err(OutputMissing) <==>
              && ReadRecord(files, MetaPath(jobId)).Some?
              && ReadRecord(files, MetaPath(jobId)).value.status == Done
              && ReadRecord(files, MetaPath(jobId)).value.outputPath !in files
    ensures r.Ok? <==>
              && ReadRecord(files, MetaPath(jobId)).Some?
              && ReadRecord(files, MetaPath(jobId)).value.status == Done
              && ReadRecord(files, MetaPath(jobId)).value.outputPath in files
    ensures r.Ok? ==>
              var rec := ReadRecord(files, MetaPath(jobId)).value;
              r.value == FileReply(rec.outputPath, "application/pdf", "compressed-" + jobId + ".pdf")
  {
    var meta := MetaPath(jobId);
    if meta !in files then Err(JobNotFound)
    else match ReadRecord(files, meta)
      case None => Err(Unhandled)
      case Some(rec) =>
        if rec.status != Done then Err(NotFinished)
        else if rec.outputPath !in files then Err(OutputMissing)
        else Ok(FileReply(rec.outputPath, "application/pdf", "compressed-" + jobId + ".pdf"))
  }

  /** Right after submission the job reads back as queued, exactly as written, and cannot be downloaded yet. */
  lemma SubmittedJobIsQueued(files: Files, jobId: string, level: Level, inputBytes: nat, now: real)
    ensures var after := files[MetaPath(jobId) := File(Record(InitialRecord(jobId, level, inputBytes)), now)];
            && JobStatus(after, jobId) == Ok(InitialRecord(jobId, level, inputBytes))
            && JobStatus(after, jobId).value.status == Queued
            && Download(after, jobId) == Err(NotFinished)
  {
  }
}
