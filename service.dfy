/**
 * How the API and the worker meet: the API writes the input and the
 * `queued` record under the job's paths and enqueues them; the worker
 * reads and rewrites that record; the status and download endpoints read
 * what the worker left behind.
 */
module Service {
  import opened Common
  import opened Jobs
  import opened Storage
  import opened Api
  import opened Tasks

  /** The queue entry carries the paths the API derives from the job id. */
  predicate EnqueuedPaths(job: QueueEntry) {
    && job.inPath == InPath(job.jobId)
    && job.outPath == OutPath(job.jobId)
    && job.metaPath == MetaPath(job.jobId)
  }

  /**
   * A record the API has just written is still there, still `queued`, when
   * the worker's first sweep runs within the retention time.
   */
  lemma SubmittedRecordSurvivesSweep(files: Files, jobId: string, level: Level, inputBytes: nat,
                                     submitted: real, now: real, ttl: int, undeletable: set<Path>)
    requires now - submitted <= ttl as real
    ensures var after := files[MetaPath(jobId) := File(Record(InitialRecord(jobId, level, inputBytes)), submitted)];
            var stored := ReadRecord(Sweep(after, now, ttl, undeletable), MetaPath(jobId));
            && stored == Some(InitialRecord(jobId, level, inputBytes))
            && stored.value.status == Queued
  {
    var after := files[MetaPath(jobId) := File(Record(InitialRecord(jobId, level, inputBytes)), submitted)];
    assert !Expired(after, MetaPath(jobId), now, ttl);
  }

  /** Once the sweep deletes a job's record, both endpoints answer 404. */
  lemma ExpiredJobIsGone(files: Files, jobId: string, now: real, ttl: int, undeletable: set<Path>)
    requires Expired(files, MetaPath(jobId), now, ttl) && MetaPath(jobId) !in undeletable
    ensures var swept := Sweep(files, now, ttl, undeletable);
            && JobStatus(swept, jobId) == Err(JobNotFound)
            && Download(swept, jobId) == Err(JobNotFound)
  {
  }

  /**
   * A job whose Ghostscript run succeeds reports `done` without error and
   * its output is served, provided the second sweep comes within the
   * retention time of the job's writes.
   */
  lemma CompletedJobIsDownloadable(files: Files, job: QueueEntry, w: World, stored: JobRecord)
    requires EnqueuedPaths(job)
    requires ReadRecord(Sweep(files, w.now, job.ttlSeconds, w.undeletable), job.metaPath) == Some(stored)
    requires stored.outputPath == job.outPath
    requires w.gs.Exited? && w.gs.returncode == 0
    requires w.later - w.now <= job.ttlSeconds as real
    ensures var run := RunJob(files, job, w);
            && run.result.Ok?
            && JobStatus(run.files, job.jobId).Ok?
            && JobStatus(run.files, job.jobId).value.status == Done
            && JobStatus(run.files, job.jobId).value.error == None
            && Download(run.files, job.jobId) == Ok(FileReply(job.outPath, "application/pdf", "compressed-" + job.jobId + ".pdf"))
  {
    ArtifactKindsDistinct(job.jobId, job.jobId);
    assert |PrePath(job.jobId, job.outPath)| == 3;
    SuccessKeepsArtifacts(files, job, w, stored);
  }

  /**
   * A job whose Ghostscript run fails reports `failed` with the command's
   * message as its error, and the download answers 409.
   */
  lemma FailedJobIsNotDownloadable(files: Files, job: QueueEntry, w: World)
    requires ReadRecord(Sweep(files, w.now, job.ttlSeconds, w.undeletable), job.metaPath).Some?
    requires EnqueuedPaths(job)
    requires w.gs.Raised? || w.gs.returncode != 0
    ensures var run := RunJob(files, job, w);
            && run.result.Err? && run.result.error.CommandFailed?
            && JobStatus(run.files, job.jobId).Ok?
            && JobStatus(run.files, job.jobId).value.status == Failed
            && JobStatus(run.files, job.jobId).value.error == Some(run.result.error.message)
            && Download(run.files, job.jobId) == Err(NotFinished)
  {
    JournalStages(files, job, w);
    GhostscriptFailureRecorded(files, job, w);
  }
}
