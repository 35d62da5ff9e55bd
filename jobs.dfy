/**
 * The job record: the persisted state of one compression job, as the API
 * writes it when the job is queued and the worker rewrites it at every
 * status change.
 */
module Jobs {
  import opened Common
  import opened Text

  /** A path below the data directory, one component per element (`["in", "<id>.pdf"]`). */
  type Path = seq<string>

  /** `str(path)`, written relative to the data directory. */
  function Render(p: Path): string {
    Join(p, "/")
  }

  /** The directory holding `p` (Python's `Path.parent`); the data directory is `[]`. */
  function Parent(p: Path): Path {
    if |p| == 0 then [] else p[..|p| - 1]
  }

  datatype Status = Queued | Processing | Done | Failed

  datatype Level = High | Medium | Low

  /** The level as it travels in the record and in the queue entry. */
  function LevelName(l: Level): string {
    match l
    case High => "high"
    case Medium => "medium"
    case Low => "low"
  }

  /**
   * The fields of the record written under `meta/<id>.json`; `None`
   * stands for JSON `null`. The ratio is kept as an exact `real`.
   */
  datatype JobRecord = JobRecord(
    jobId: string,
    status: Status,
    level: Level,
    inputPath: Path,
    outputPath: Path,
    inputBytes: nat,
    outputBytes: Option<nat>,
    ratio: Option<real>,
    error: Option<string>)

  /** The intended status lifecycle: queued, then processing, then done or failed. */
  predicate Step(from: Status, to: Status) {
    match from
    case Queued => to == Processing
    case Processing => to == Done || to == Failed
    case Done => false
    case Failed => false
  }

  predicate Terminal(s: Status) {
    s == Done || s == Failed
  }

  /** Every status in `written` is one lifecycle step after the one before it, starting from `start`. */
  predicate FollowsLifecycle(start: Status, written: seq<Status>)
    decreases |written|
  {
    |written| == 0 || (Step(start, written[0]) && FollowsLifecycle(written[0], written[1..]))
  }

  /** The arguments the API enqueues and the worker's job function receives. */
  datatype QueueEntry = QueueEntry(jobId: string, level: string, inPath: Path, outPath: Path, metaPath: Path, ttlSeconds: int)
}
