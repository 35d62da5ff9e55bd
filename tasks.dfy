/**
 * The worker side of the service (worker/tasks.py): running an external
 * command, choosing the Ghostscript preset, the TTL sweep over the
 * artifact directories, and the job function that moves a record from
 * `queued` through `processing` to `done` or `failed`.
 */
module Tasks {
  import opened Common
  import opened Text
  import opened Jobs
  import opened Storage

  // ---------------------------------------------------------------------
  // External commands
  // ---------------------------------------------------------------------

  /**
   * How a command invocation ended: it exited with a return code and some
   * stderr text, or `subprocess.run` itself raised (a timeout, a missing
   * binary) with the given message.
   */
  datatype Completion = Exited(returncode: int, stderr: string) | Raised(message: string)

  /** `_run` returning normally, or raising with the message that `str(e)` shows. */
  datatype Outcome = Pass | Fail(message: string)

  /** The `RuntimeError` text for a non-zero exit. */
  function FailureMessage(cmd: seq<string>, returncode: int, stderr: string): string {
    "Command failed (" + Decimal(returncode) + "): " + Join(cmd, " ") + "\n" + Strip(stderr)
  }

  /** `_run`: raises exactly when the command did not exit with code 0. */
  function Run(cmd: seq<string>, completion: Completion): (r: Outcome)
    ensures r.Pass? <==> completion.Exited? && completion.returncode == 0
    ensures completion.Raised? ==> r == Fail(completion.message)
    ensures completion.Exited? && r.Fail? ==> r.message == FailureMessage(cmd, completion.returncode, completion.stderr)
  {
    match completion
    case Raised(message) => Fail(message)
    case Exited(code, stderr) => if code != 0 then Fail(FailureMessage(cmd, code, stderr)) else Pass
  }

  /** The failure text names the return code (it can be read back) and ends with the stripped stderr. */
  lemma FailureMessageReports(cmd: seq<string>, returncode: int, stderr: string)
    ensures var m := FailureMessage(cmd, returncode, stderr);
            var code := Decimal(returncode);
            && 16 + |code| <= |m|
            && m[..16] == "Command failed ("
            && ParseInt(m[16..16 + |code|]) == returncode
            && EndsWith(m, Strip(stderr))
  {
    var head := "Command failed (";
    var code := Decimal(returncode);
    var mid := "): " + Join(cmd, " ") + "\n";
    assert FailureMessage(cmd, returncode, stderr) == head + code + (mid + Strip(stderr));
    assert |head| == 16;
    ConcatSlices(head, code, mid + Strip(stderr));
    ConcatSlices(head + code, mid, Strip(stderr));
    DecimalRoundTrip(returncode);
  }

  // ---------------------------------------------------------------------
  // Ghostscript preset
  // ---------------------------------------------------------------------

  /** `_gs_settings`: "high" and "low" pick the largest and smallest presets; anything else gets the balanced one. */
  function GsSetting(level: string): (r: string)
    ensures r == "/prepress" <==> level == "high"
    ensures r == "/screen" <==> level == "low"
    ensures r == "/ebook" <==> level != "high" && level != "low"
  {
    if level == "high" then "/prepress"
    else if level == "low" then "/screen"
    else "/ebook"
  }

  /** The three stored levels select three different presets, ordered by fidelity. */
  lemma GsSettingForLevels()
    ensures GsSetting(LevelName(High)) == "/prepress"
    ensures GsSetting(LevelName(Medium)) == "/ebook"
    ensures GsSetting(LevelName(Low)) == "/screen"
  {
    assert LevelName(Medium) != "high" && LevelName(Medium) != "low";
  }

  // ---------------------------------------------------------------------
  // TTL sweep
  // ---------------------------------------------------------------------

  /** The sub-directories of the data directory that the sweep visits, in order. */
  const ArtifactDirs: seq<string> := ["in", "out", "meta"]

  /**
   * `p` is a regular file listed directly in an existing artifact
   * directory, and it was last modified more than `ttl` seconds before `now`.
   */
  predicate Expired(files: Files, p: Path, now: real, ttl: int) {
    && p in files && |p| == 2 && p[0] in ArtifactDirs && IsDir(files, [p[0]])
    && files[p].File? && now - files[p].mtime > ttl as real
  }

  /** The files of the directories in `dirs` that a sweep deletes: expired, and not refusing deletion. */
  function Targets(files: Files, dirs: seq<string>, now: real, ttl: int, undeletable: set<Path>): set<Path> {
    set p | p in files && Expired(files, p, now, ttl) && p[0] in dirs && p !in undeletable
  }

  /**
   * `_cleanup_old` as a function of the store: it deletes exactly the
   * expired files of `in`, `out` and `meta`, except those whose deletion
   * fails, and changes nothing else.
   */
  function Sweep(files: Files, now: real, ttl: int, undeletable: set<Path>): (r: Files)
    ensures r.Keys <= files.Keys
    ensures forall p :: p in r ==> r[p] == files[p]
    ensures forall p :: p in files ==> (p !in r <==> Expired(files, p, now, ttl) && p !in undeletable)
  {
    files - Targets(files, ArtifactDirs, now, ttl, undeletable)
  }

  /** What `glob("*")` lists in the sub-directory `sub`: its direct entries, when it is a directory. */
  function Listing(files: Files, sub: string): set<Path> {
    if IsDir(files, [sub]) then set p | p in files && |p| == 2 && p[0] == sub else {}
  }

  /** Sweeping once more with the same clock deletes nothing. */
  lemma SweepIdempotent(files: Files, now: real, ttl: int, undeletable: set<Path>)
    ensures var once := Sweep(files, now, ttl, undeletable);
            Sweep(once, now, ttl, undeletable) == once
  {
    var once := Sweep(files, now, ttl, undeletable);
    var twice := Sweep(once, now, ttl, undeletable);
    forall p | p in once
      ensures p in twice
    {
      if Expired(once, p, now, ttl) {
        assert IsDir(files, [p[0]]);
        assert Expired(files, p, now, ttl);
      }
    }
  }

  /**
   * `_cleanup_old`: for each artifact directory that exists, every listed
   * regular file older than the TTL is unlinked; a failing unlink is
   * swallowed and the sweep goes on.
   */
  method CleanupOld(fs: ArtifactStore, ttl: int, now: real, undeletable: set<Path>)
    modifies fs
    ensures fs.files == Sweep(old(fs.files), now, ttl, undeletable)
  {
    ghost var start := fs.files;
    var subs := ArtifactDirs;
    for j := 0 to |subs|
      invariant fs.files == start - Targets(start, subs[..j], now, ttl, undeletable)
    {
      var sub := subs[j];
      assert sub !in subs[..j];
      assert subs[..j + 1] == subs[..j] + [sub];
      ghost var before := fs.files;
      ghost var mine := Targets(start, [sub], now, ttl, undeletable);
      if [sub] !in fs.files {
        assert mine == {};
        assert Targets(start, subs[..j + 1], now, ttl, undeletable) == Targets(start, subs[..j], now, ttl, undeletable);
        continue;
      }
      var entries := Listing(fs.files, sub);
      assert entries == Listing(start, sub);
      while entries != {}
        invariant entries <= Listing(start, sub)
        invariant fs.files == before - (mine - entries)
        decreases |entries|
      {
        var f :| f in entries;
        assert f in fs.files && fs.files[f] == start[f];
        if IsFile(fs.files, f) && now - fs.files[f].mtime > ttl as real {
          if f !in undeletable {
            fs.Remove(f);
          }
          // otherwise the unlink raises and the error is swallowed
        }
        entries := entries - {f};
      }
      assert Targets(start, subs[..j + 1], now, ttl, undeletable)
          == Targets(start, subs[..j], now, ttl, undeletable) + mine;
    }
    assert subs[..|subs|] == ArtifactDirs;
  }

  // ---------------------------------------------------------------------
  // The job function
  // ---------------------------------------------------------------------

  /** What the world does while the job runs: the clock, the files whose deletion fails, and what the two commands do. */
  datatype World = World(
    now: real,              // clock for the first sweep and for every file the job writes
    later: real,            // clock for the second sweep
    undeletable: set<Path>, // files whose unlink raises
    qpdf: Completion,
    qpdfOutput: seq<byte>,  // what qpdf writes when it succeeds
    gs: Completion,
    gsOutput: seq<byte>)    // what Ghostscript writes when it succeeds

  /** The exception the job function ends with. */
  datatype JobError = MetaUnreadable | CommandFailed(message: string)

  /** The value the job function returns (and stores in the record): output size and compression ratio. */
  datatype Stats = Stats(outputBytes: Option<nat>, ratio: Option<real>)

  /** One observable step of the job, in the order it happens. */
  datatype Event = Swept(at: real) | Persisted(record: JobRecord) | Ran(command: seq<string>, outcome: Outcome) | TempCleaned

  /** The store after the job, how it ended, and what it did on the way. */
  datatype JobRun = JobRun(files: Files, result: Result<Stats, JobError>, journal: seq<Event>)

  /**
   * The statistics of a finished job: the output size and the ratio
   * `output / input`, absent when the input is empty; both absent when
   * either size could not be read.
   */
  function JobStats(inputSize: Option<nat>, outputSize: Option<nat>): (s: Stats)
    ensures inputSize.None? || outputSize.None? ==> s == Stats(None, None)
    ensures inputSize.Some? && outputSize.Some? ==>
              && s.outputBytes == outputSize
              && (s.ratio.None? <==> inputSize.value == 0)
              && (s.ratio.Some? ==> s.ratio.value * (inputSize.value as real) == outputSize.value as real)
  {
    if inputSize.None? || outputSize.None? then Stats(None, None)
    else if inputSize.value == 0 then Stats(outputSize, None)
    else Stats(outputSize, Some((outputSize.value as real) / (inputSize.value as real)))
  }

  /** `out_p.parent / "tmp"`. */
  function TmpDir(outPath: Path): Path {
    Parent(outPath) + ["tmp"]
  }

  /** The qpdf intermediate, `tmp/<job_id>.pre.pdf`. */
  function PrePath(jobId: string, outPath: Path): Path {
    TmpDir(outPath) + [jobId + ".pre.pdf"]
  }

  function QpdfCommand(src: Path, dst: Path): seq<string> {
    ["qpdf", "--linearize", Render(src), Render(dst)]
  }

  function GsCommand(setting: string, dst: Path, src: Path): seq<string> {
    ["gs", "-sDEVICE=pdfwrite", "-dCompatibilityLevel=1.4", "-dPDFSETTINGS=" + setting,
     "-dNOPAUSE", "-dQUIET", "-dBATCH", "-sOutputFile=" + Render(dst), Render(src)]
  }

  /** The last argument of a Ghostscript command line: the file it reads. */
  function GsSource(cmd: seq<string>): string
    requires |cmd| > 0
  {
    cmd[|cmd| - 1]
  }

  /**
   * `compress_pdf_job` as a function of the store it starts from: sweep,
   * then, if the record can be read, process the job.
   */
  function RunJob(files: Files, job: QueueEntry, w: World): JobRun {
    var swept := Sweep(files, w.now, job.ttlSeconds, w.undeletable);
    match ReadRecord(swept, job.metaPath)
    case None => JobRun(swept, Err(MetaUnreadable), [Swept(w.now)])
    case Some(stored) => Process(swept, stored, job, w, [Swept(w.now)])
  }

  /**
   * Mark the record `processing`, try qpdf, run Ghostscript on the qpdf
   * result or on the original, then record `failed` (and raise) or finish.
   * `before` is the journal of what the caller did first.
   */
  function Process(swept: Files, stored: JobRecord, job: QueueEntry, w: World, before: seq<Event>): JobRun {
    var processing := stored.(status := Processing);
    var marked := swept[job.metaPath := File(Record(processing), w.now)];
    var tmp := TmpDir(job.outPath);
    var withTmp := if tmp in marked then marked else marked[tmp := Dir];
    var pre := PrePath(job.jobId, job.outPath);
    var qpdfCmd := QpdfCommand(job.inPath, pre);
    var qpdf := Run(qpdfCmd, w.qpdf);
    var prepared := if qpdf.Pass? then withTmp[pre := File(Bytes(w.qpdfOutput), w.now)] else withTmp;
    var src := if qpdf.Pass? then pre else job.inPath;
    var gsCmd := GsCommand(GsSetting(job.level), job.outPath, src);
    var gs := Run(gsCmd, w.gs);
    var started := before + [Persisted(processing), Ran(qpdfCmd, qpdf), Ran(gsCmd, gs)];
    if gs.Fail? then
      var failed := processing.(status := Failed, error := Some(gs.message));
      JobRun(prepared[job.metaPath := File(Record(failed), w.now)], Err(CommandFailed(gs.message)),
             started + [Persisted(failed)])
    else
      Finish(prepared, processing, started, job, w)
  }

  /** After Ghostscript succeeded: stats, the `done` record, temp cleanup, second sweep. */
  function Finish(prepared: Files, processing: JobRecord, started: seq<Event>, job: QueueEntry, w: World): JobRun {
    var pre := PrePath(job.jobId, job.outPath);
    var written := prepared[job.outPath := File(Bytes(w.gsOutput), w.now)];
    var stats := JobStats(StatSize(written, job.inPath), StatSize(written, job.outPath));
    var done := processing.(status := Done, outputBytes := stats.outputBytes, ratio := stats.ratio, error := None);
    var recorded := written[job.metaPath := File(Record(done), w.now)];
    var cleaned := if IsFile(recorded, pre) && pre !in w.undeletable then recorded - {pre} else recorded;
    JobRun(Sweep(cleaned, w.later, job.ttlSeconds, w.undeletable), Ok(stats),
           started + [Persisted(done), TempCleaned, Swept(w.later)])
  }

  /**
   * `compress_pdf_job`: the record read from the meta file is updated in
   * place and rewritten after each status change; every step is logged in
   * `journal` as it happens.
   */
  method CompressPdfJob(fs: ArtifactStore, job: QueueEntry, w: World)
    returns (r: Result<Stats, JobError>, journal: seq<Event>)
    modifies fs
    ensures var run := RunJob(old(fs.files), job, w);
            fs.files == run.files && r == run.result && journal == run.journal
  {
    CleanupOld(fs, job.ttlSeconds, w.now, w.undeletable);
    journal := [Swept(w.now)];
    var stored := ReadRecord(fs.files, job.metaPath);
    if stored.None? {
      return Err(MetaUnreadable), journal;
    }
    r, journal := ProcessJob(fs, stored.value, job, w, journal);
  }

  /** From the record just read to the end of the job, extending the journal `before`. */
  method ProcessJob(fs: ArtifactStore, stored: JobRecord, job: QueueEntry, w: World, before: seq<Event>)
    returns (r: Result<Stats, JobError>, journal: seq<Event>)
    modifies fs
    ensures var run := Process(old(fs.files), stored, job, w, before);
            fs.files == run.files && r == run.result && journal == run.journal
  {
    journal := before;
    var meta := stored;
    meta := meta.(status := Processing);
    ghost var processing := meta;
    fs.Write(job.metaPath, Record(meta), w.now);
    journal := journal + [Persisted(meta)];

    fs.MakeDir(TmpDir(job.outPath));
    var pre := PrePath(job.jobId, job.outPath);
    var qpdfCmd := QpdfCommand(job.inPath, pre);
    var qpdf := Run(qpdfCmd, w.qpdf);
    journal := journal + [Ran(qpdfCmd, qpdf)];
    var src: Path;
    if qpdf.Pass? {
      fs.Write(pre, Bytes(w.qpdfOutput), w.now);
      src := pre;
    } else {
      src := job.inPath;
    }

    var gsCmd := GsCommand(GsSetting(job.level), job.outPath, src);
    var gs := Run(gsCmd, w.gs);
    journal := journal + [Ran(gsCmd, gs)];
    ghost var prepared := fs.files;
    ghost var started := journal;
    assert started == before + [Persisted(processing), Ran(qpdfCmd, qpdf), Ran(gsCmd, gs)];
    if gs.Fail? {
      meta := meta.(status := Failed, error := Some(gs.message));
      fs.Write(job.metaPath, Record(meta), w.now);
      journal := journal + [Persisted(meta)];
      assert Process(old(fs.files), stored, job, w, before)
          == JobRun(prepared[job.metaPath := File(Record(meta), w.now)], Err(CommandFailed(gs.message)), journal);
      return Err(CommandFailed(gs.message)), journal;
    }
    assert Process(old(fs.files), stored, job, w, before) == Finish(prepared, processing, started, job, w);
    r, journal := FinishJob(fs, meta, journal, job, w);
  }

  /** The tail of `compress_pdf_job` once Ghostscript has succeeded. */
  method FinishJob(fs: ArtifactStore, processing: JobRecord, started: seq<Event>, job: QueueEntry, w: World)
    returns (r: Result<Stats, JobError>, journal: seq<Event>)
    modifies fs
    ensures var run := Finish(old(fs.files), processing, started, job, w);
            fs.files == run.files && r == run.result && journal == run.journal
  {
    var meta := processing;
    var pre := PrePath(job.jobId, job.outPath);
    fs.Write(job.outPath, Bytes(w.gsOutput), w.now);
    var stats := JobStats(StatSize(fs.files, job.inPath), StatSize(fs.files, job.outPath));
    meta := meta.(status := Done, outputBytes := stats.outputBytes, ratio := stats.ratio, error := None);
    fs.Write(job.metaPath, Record(meta), w.now);
    journal := started + [Persisted(meta)];

    if IsFile(fs.files, pre) && pre !in w.undeletable {
      fs.Remove(pre);
    }
    journal := journal + [TempCleaned];
    CleanupOld(fs, job.ttlSeconds, w.later, w.undeletable);
    journal := journal + [Swept(w.later)];
    return Ok(stats), journal;
  }

  // ---------------------------------------------------------------------
  // What the job function guarantees
  // ---------------------------------------------------------------------

  /**
   * The job's journal, read off its stages: a job whose record cannot be
   * read only sweeps; otherwise the first four events are the sweep, the
   * `processing` write and the two commands, followed either by the
   * `failed` write alone or by the `done` write, temp cleanup and the
   * second sweep. The remaining lemmas about the job start from here.
   */
  lemma JournalStages(files: Files, job: QueueEntry, w: World)
    ensures var run := RunJob(files, job, w);
            var swept := Sweep(files, w.now, job.ttlSeconds, w.undeletable);
            var pre := PrePath(job.jobId, job.outPath);
            var qpdfCmd := QpdfCommand(job.inPath, pre);
            var qpdf := Run(qpdfCmd, w.qpdf);
            var gsCmd := GsCommand(GsSetting(job.level), job.outPath, if qpdf.Pass? then pre else job.inPath);
            var gs := Run(gsCmd, w.gs);
            && (ReadRecord(swept, job.metaPath).None? ==>
                  run.journal == [Swept(w.now)] && run.result == Err(MetaUnreadable))
            && (ReadRecord(swept, job.metaPath).Some? ==>
                  var processing := ReadRecord(swept, job.metaPath).value.(status := Processing);
                  && |run.journal| >= 5
                  && run.journal[0] == Swept(w.now) && run.journal[1] == Persisted(processing)
                  && run.journal[2] == Ran(qpdfCmd, qpdf) && run.journal[3] == Ran(gsCmd, gs)
                  && (gs.Fail? ==>
                        && |run.journal| == 5
                        && run.journal[4] == Persisted(processing.(status := Failed, error := Some(gs.message)))
                        && job.metaPath in run.files
                        && run.files[job.metaPath] == File(Record(processing.(status := Failed, error := Some(gs.message))), w.now)
                        && run.result == Err(CommandFailed(gs.message)))
                  && (gs.Pass? ==>
                        && run.result.Ok?
                        && |run.journal| == 7
                        && run.journal[4] == Persisted(processing.(status := Done, outputBytes := run.result.value.outputBytes,
                                                                   ratio := run.result.value.ratio, error := None))
                        && run.journal[5] == TempCleaned && run.journal[6] == Swept(w.later)))
  {
    var swept := Sweep(files, w.now, job.ttlSeconds, w.undeletable);
    if ReadRecord(swept, job.metaPath).Some? {
      var stored := ReadRecord(swept, job.metaPath).value;
      assert RunJob(files, job, w) == Process(swept, stored, job, w, [Swept(w.now)]);
      ProcessStages(swept, stored, job, w);
    }
  }

  lemma ProcessStages(swept: Files, stored: JobRecord, job: QueueEntry, w: World)
    ensures var run := Process(swept, stored, job, w, [Swept(w.now)]);
            var processing := stored.(status := Processing);
            var pre := PrePath(job.jobId, job.outPath);
            var qpdfCmd := QpdfCommand(job.inPath, pre);
            var qpdf := Run(qpdfCmd, w.qpdf);
            var gsCmd := GsCommand(GsSetting(job.level), job.outPath, if qpdf.Pass? then pre else job.inPath);
            var gs := Run(gsCmd, w.gs);
            && |run.journal| >= 5
            && run.journal[0] == Swept(w.now) && run.journal[1] == Persisted(processing)
            && run.journal[2] == Ran(qpdfCmd, qpdf) && run.journal[3] == Ran(gsCmd, gs)
            && (gs.Fail? ==>
                  && |run.journal| == 5
                  && run.journal[4] == Persisted(processing.(status := Failed, error := Some(gs.message)))
                  && job.metaPath in run.files
                  && run.files[job.metaPath] == File(Record(processing.(status := Failed, error := Some(gs.message))), w.now)
                  && run.result == Err(CommandFailed(gs.message)))
            && (gs.Pass? ==>
                  && run.result.Ok?
                  && |run.journal| == 7
                  && run.journal[4] == Persisted(processing.(status := Done, outputBytes := run.result.value.outputBytes,
                                                             ratio := run.result.value.ratio, error := None))
                  && run.journal[5] == TempCleaned && run.journal[6] == Swept(w.later))
  {
    var processing := stored.(status := Processing);
    var marked := swept[job.metaPath := File(Record(processing), w.now)];
    var tmp := TmpDir(job.outPath);
    var withTmp := if tmp in marked then marked else marked[tmp := Dir];
    var pre := PrePath(job.jobId, job.outPath);
    var qpdfCmd := QpdfCommand(job.inPath, pre);
    var qpdf := Run(qpdfCmd, w.qpdf);
    var prepared := if qpdf.Pass? then withTmp[pre := File(Bytes(w.qpdfOutput), w.now)] else withTmp;
    var gsCmd := GsCommand(GsSetting(job.level), job.outPath, if qpdf.Pass? then pre else job.inPath);
    var gs := Run(gsCmd, w.gs);
    var started := [Swept(w.now)] + [Persisted(processing), Ran(qpdfCmd, qpdf), Ran(gsCmd, gs)];
    var run := Process(swept, stored, job, w, [Swept(w.now)]);
    if gs.Pass? {
      assert run == Finish(prepared, processing, started, job, w);
      FinishStages(prepared, processing, started, job, w);
    } else {
      var failed := processing.(status := Failed, error := Some(gs.message));
      assert run.journal == started + [Persisted(failed)];
    }
    assert run.journal[..4] == started;
    assert run.journal[0] == started[0] && run.journal[1] == started[1];
    assert run.journal[2] == started[2] && run.journal[3] == started[3];
  }

  lemma FinishStages(prepared: Files, processing: JobRecord, started: seq<Event>, job: QueueEntry, w: World)
    ensures var run := Finish(prepared, processing, started, job, w);
            && run.result.Ok?
            && run.journal == started + [Persisted(processing.(status := Done, outputBytes := run.result.value.outputBytes,
                                                               ratio := run.result.value.ratio, error := None)),
                                         TempCleaned, Swept(w.later)]
  {
  }

  /** `processing` is persisted before any external command runs, right after the first sweep. */
  lemma ProcessingPersistedFirst(files: Files, job: QueueEntry, w: World)
    ensures var run := RunJob(files, job, w);
            && |run.journal| > 0 && run.journal[0] == Swept(w.now)
            && forall i :: 0 <= i < |run.journal| && run.journal[i].Ran? ==>
                 2 <= i && run.journal[1].Persisted? && run.journal[1].record.status == Processing
  {
    JournalStages(files, job, w);
  }

  /**
   * qpdf is best effort: whatever it does, Ghostscript runs next, on the
   * intermediate when qpdf succeeded and on the original input otherwise.
   */
  lemma QpdfFallback(files: Files, job: QueueEntry, w: World)
    requires ReadRecord(Sweep(files, w.now, job.ttlSeconds, w.undeletable), job.metaPath).Some?
    ensures var run := RunJob(files, job, w);
            var pre := PrePath(job.jobId, job.outPath);
            var qpdfCmd := QpdfCommand(job.inPath, pre);
            && |run.journal| >= 4
            && run.journal[2] == Ran(qpdfCmd, Run(qpdfCmd, w.qpdf))
            && run.journal[3].Ran?
            && run.journal[3].command
               == GsCommand(GsSetting(job.level), job.outPath, if run.journal[2].outcome.Pass? then pre else job.inPath)
            && GsSource(run.journal[3].command) == Render(if run.journal[2].outcome.Pass? then pre else job.inPath)
  {
    JournalStages(files, job, w);
  }

  /**
   * When Ghostscript fails the job raises with its message, and the last
   * write leaves the record `failed` with that message as its error; no
   * `done` record, temp cleanup or second sweep follows.
   */
  lemma GhostscriptFailureRecorded(files: Files, job: QueueEntry, w: World)
    ensures var run := RunJob(files, job, w);
            run.result.Err? && run.result.error.CommandFailed? ==>
              && |run.journal| == 5
              && run.journal[3].Ran? && run.journal[3].outcome == Fail(run.result.error.message)
              && run.journal[4].Persisted?
              && run.journal[4].record.status == Failed
              && run.journal[4].record.error == Some(run.result.error.message)
              && job.metaPath in run.files
              && run.files[job.metaPath] == File(Record(run.journal[4].record), w.now)
              && forall i :: 0 <= i < |run.journal| ==>
                   run.journal[i] != TempCleaned && !(run.journal[i].Persisted? && run.journal[i].record.status == Done)
  {
    JournalStages(files, job, w);
  }

  /**
   * When Ghostscript succeeds the record is rewritten `done` with the
   * returned statistics and no error; job id, level, paths and the stored
   * input size are those of the record read at the start.
   */
  lemma SuccessRecorded(files: Files, job: QueueEntry, w: World, stored: JobRecord)
    requires ReadRecord(Sweep(files, w.now, job.ttlSeconds, w.undeletable), job.metaPath) == Some(stored)
    ensures var run := RunJob(files, job, w);
            run.result.Ok? ==>
              && |run.journal| == 7
              && run.journal[4] == Persisted(stored.(status := Done, outputBytes := run.result.value.outputBytes,
                                                     ratio := run.result.value.ratio, error := None))
              && run.journal[5] == TempCleaned && run.journal[6] == Swept(w.later)
  {
    JournalStages(files, job, w);
  }

  /**
   * With the job's paths apart, the statistics come from the input file as
   * the first sweep left it and from the output Ghostscript wrote; an
   * unreadable input leaves both output size and ratio empty.
   */
  lemma SuccessStats(files: Files, job: QueueEntry, w: World)
    requires job.inPath != job.outPath && job.inPath != job.metaPath && job.outPath != job.metaPath
    requires job.inPath != PrePath(job.jobId, job.outPath) && job.inPath != TmpDir(job.outPath)
    ensures var run := RunJob(files, job, w);
            var input := StatSize(Sweep(files, w.now, job.ttlSeconds, w.undeletable), job.inPath);
            run.result.Ok? ==>
              && run.result.value == JobStats(input, Some(|w.gsOutput|))
              && (input.None? ==> run.result.value == Stats(None, None))
  {
    var swept := Sweep(files, w.now, job.ttlSeconds, w.undeletable);
    if ReadRecord(swept, job.metaPath).Some? {
      var stored := ReadRecord(swept, job.metaPath).value;
      assert RunJob(files, job, w) == Process(swept, stored, job, w, [Swept(w.now)]);
      ProcessStats(swept, stored, job, w);
    }
  }

  lemma ProcessStats(swept: Files, stored: JobRecord, job: QueueEntry, w: World)
    requires job.inPath != job.outPath && job.inPath != job.metaPath
    requires job.inPath != PrePath(job.jobId, job.outPath) && job.inPath != TmpDir(job.outPath)
    ensures var run := Process(swept, stored, job, w, [Swept(w.now)]);
            run.result.Ok? ==> run.result == Ok(JobStats(StatSize(swept, job.inPath), Some(|w.gsOutput|)))
  {
    var processing := stored.(status := Processing);
    var marked := swept[job.metaPath := File(Record(processing), w.now)];
    var tmp := TmpDir(job.outPath);
    var withTmp := if tmp in marked then marked else marked[tmp := Dir];
    var pre := PrePath(job.jobId, job.outPath);
    var qpdfCmd := QpdfCommand(job.inPath, pre);
    var qpdf := Run(qpdfCmd, w.qpdf);
    var prepared := if qpdf.Pass? then withTmp[pre := File(Bytes(w.qpdfOutput), w.now)] else withTmp;
    var gsCmd := GsCommand(GsSetting(job.level), job.outPath, if qpdf.Pass? then pre else job.inPath);
    var gs := Run(gsCmd, w.gs);
    if gs.Pass? {
      var started := [Swept(w.now)] + [Persisted(processing), Ran(qpdfCmd, qpdf), Ran(gsCmd, gs)];
      assert Process(swept, stored, job, w, [Swept(w.now)]) == Finish(prepared, processing, started, job, w);
      FinishStats(prepared, processing, started, job, w);
      assert StatSize(prepared, job.inPath) == StatSize(swept, job.inPath);
    }
  }

  /** The statistics `Finish` returns: the input as it stands, and what Ghostscript wrote. */
  lemma FinishStats(prepared: Files, processing: JobRecord, started: seq<Event>, job: QueueEntry, w: World)
    requires job.inPath != job.outPath
    ensures Finish(prepared, processing, started, job, w).result
            == Ok(JobStats(StatSize(prepared, job.inPath), Some(|w.gsOutput|)))
  {
    var written := prepared[job.outPath := File(Bytes(w.gsOutput), w.now)];
    assert StatSize(written, job.inPath) == StatSize(prepared, job.inPath);
    assert StatSize(written, job.outPath) == Some(|w.gsOutput|);
  }

  /** The statuses a journal shows being written, in order. */
  function WrittenStatuses(journal: seq<Event>): seq<Status> {
    if journal == [] then []
    else (if journal[0].Persisted? then [journal[0].record.status] else []) + WrittenStatuses(journal[1..])
  }

  /** The statuses written by a journal of the shape the job produces. */
  lemma StagedStatuses(j: seq<Event>, later: real)
    requires |j| >= 5 && j[1].Persisted? && j[1].record.status == Processing
    requires !j[0].Persisted? && !j[2].Persisted? && !j[3].Persisted? && j[4].Persisted?
    requires |j| == 5 || (|j| == 7 && j[5] == TempCleaned && j[6] == Swept(later))
    ensures WrittenStatuses(j) == [Processing, j[4].record.status]
  {
    assert |j| == 7 ==> j[5..] == [TempCleaned, Swept(later)];
    var t1 := j[1..];
    var t2 := t1[1..];
    var t3 := t2[1..];
    var t4 := t3[1..];
    assert t1[0] == j[1] && t2[0] == j[2] && t3[0] == j[3] && t4[0] == j[4] && t4[1..] == j[5..];
    assert WrittenStatuses(j[5..]) == [] by {
      if j[5..] != [] {
        assert [Swept(later)][1..] == [];
        assert WrittenStatuses([Swept(later)]) == [];
        assert j[5..][1..] == [Swept(later)];
      }
    }
    assert WrittenStatuses(t4) == [j[4].record.status];
    assert WrittenStatuses(t1) == [Processing] + WrittenStatuses(t2);
  }

  /**
   * The job writes `processing` and then exactly one terminal status (or
   * nothing, when the record cannot be read): from a queued record every
   * write is one lifecycle step, and the last write is terminal.
   */
  lemma JobFollowsLifecycle(files: Files, job: QueueEntry, w: World)
    ensures var written := WrittenStatuses(RunJob(files, job, w).journal);
            && (written == [] || written == [Processing, Done] || written == [Processing, Failed])
            && (written == [] <==> ReadRecord(Sweep(files, w.now, job.ttlSeconds, w.undeletable), job.metaPath).None?)
            && FollowsLifecycle(Queued, written)
            && (written != [] ==> Terminal(written[|written| - 1]))
  {
    JournalStages(files, job, w);
    var j := RunJob(files, job, w).journal;
    if |j| == 1 {
      assert WrittenStatuses(j) == [] + WrittenStatuses([]);
    } else {
      assert Terminal(j[4].record.status);
      StagedStatuses(j, w.later);
      ProcessingThenTerminal(j[4].record.status);
    }
  }

  /**
   * The job writes `processing` whatever status it reads: a job delivered
   * again after it finished is reopened, which is not a lifecycle step.
   */
  lemma RedeliveryReopensFinishedJob(files: Files, job: QueueEntry, w: World, stored: JobRecord)
    requires ReadRecord(Sweep(files, w.now, job.ttlSeconds, w.undeletable), job.metaPath) == Some(stored)
    requires Terminal(stored.status)
    ensures var written := WrittenStatuses(RunJob(files, job, w).journal);
            && |written| == 2 && written[0] == Processing
            && !FollowsLifecycle(stored.status, written)
  {
    JobFollowsLifecycle(files, job, w);
  }

  lemma ProcessingThenTerminal(s: Status)
    requires Terminal(s)
    ensures FollowsLifecycle(Queued, [Processing, s])
  {
    assert [Processing, s][1..] == [s];
    assert [s][1..] == [];
  }

  /**
   * After a successful Ghostscript run the `done` record and the output
   * written at `now` survive the second sweep when it comes within the
   * retention time; the intermediate file is the only one the cleanup may
   * remove.
   */
  lemma FinishKeepsArtifacts(prepared: Files, processing: JobRecord, started: seq<Event>, job: QueueEntry, w: World)
    requires job.metaPath != job.outPath
    requires PrePath(job.jobId, job.outPath) != job.metaPath && PrePath(job.jobId, job.outPath) != job.outPath
    requires w.later - w.now <= job.ttlSeconds as real
    ensures var run := Finish(prepared, processing, started, job, w);
            && run.result.Ok?
            && job.metaPath in run.files && job.outPath in run.files
            && run.files[job.outPath] == File(Bytes(w.gsOutput), w.now)
            && run.files[job.metaPath]
               == File(Record(processing.(status := Done, outputBytes := run.result.value.outputBytes,
                                          ratio := run.result.value.ratio, error := None)), w.now)
  {
    var pre := PrePath(job.jobId, job.outPath);
    var written := prepared[job.outPath := File(Bytes(w.gsOutput), w.now)];
    var stats := JobStats(StatSize(written, job.inPath), StatSize(written, job.outPath));
    var done := processing.(status := Done, outputBytes := stats.outputBytes, ratio := stats.ratio, error := None);
    var recorded := written[job.metaPath := File(Record(done), w.now)];
    var cleaned := if IsFile(recorded, pre) && pre !in w.undeletable then recorded - {pre} else recorded;
    assert cleaned[job.metaPath] == File(Record(done), w.now);
    assert cleaned[job.outPath] == File(Bytes(w.gsOutput), w.now);
    assert !Expired(cleaned, job.metaPath, w.later, job.ttlSeconds);
    assert !Expired(cleaned, job.outPath, w.later, job.ttlSeconds);
  }

  /** The same, for the whole job: a Ghostscript success leaves the `done` record and the output in place. */
  lemma SuccessKeepsArtifacts(files: Files, job: QueueEntry, w: World, stored: JobRecord)
    requires ReadRecord(Sweep(files, w.now, job.ttlSeconds, w.undeletable), job.metaPath) == Some(stored)
    requires job.metaPath != job.outPath
    requires PrePath(job.jobId, job.outPath) != job.metaPath && PrePath(job.jobId, job.outPath) != job.outPath
    requires w.gs.Exited? && w.gs.returncode == 0
    requires w.later - w.now <= job.ttlSeconds as real
    ensures var run := RunJob(files, job, w);
            && run.result.Ok?
            && job.metaPath in run.files && job.outPath in run.files
            && run.files[job.outPath] == File(Bytes(w.gsOutput), w.now)
            && run.files[job.metaPath]
               == File(Record(stored.(status := Done, outputBytes := run.result.value.outputBytes,
                                      ratio := run.result.value.ratio, error := None)), w.now)
  {
    var swept := Sweep(files, w.now, job.ttlSeconds, w.undeletable);
    var processing := stored.(status := Processing);
    var marked := swept[job.metaPath := File(Record(processing), w.now)];
    var tmp := TmpDir(job.outPath);
    var withTmp := if tmp in marked then marked else marked[tmp := Dir];
    var pre := PrePath(job.jobId, job.outPath);
    var qpdfCmd := QpdfCommand(job.inPath, pre);
    var qpdf := Run(qpdfCmd, w.qpdf);
    var prepared := if qpdf.Pass? then withTmp[pre := File(Bytes(w.qpdfOutput), w.now)] else withTmp;
    var gsCmd := GsCommand(GsSetting(job.level), job.outPath, if qpdf.Pass? then pre else job.inPath);
    var gs := Run(gsCmd, w.gs);
    assert gs.Pass?;
    var started := [Swept(w.now)] + [Persisted(processing), Ran(qpdfCmd, qpdf), Ran(gsCmd, gs)];
    assert RunJob(files, job, w) == Process(swept, stored, job, w, [Swept(w.now)]);
    assert Process(swept, stored, job, w, [Swept(w.now)]) == Finish(prepared, processing, started, job, w);
    FinishKeepsArtifacts(prepared, processing, started, job, w);
  }
}
