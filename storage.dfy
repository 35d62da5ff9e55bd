/**
 * The artifact store: the data directory with its `in`, `out` and `meta`
 * sub-directories, as one object that the API and the worker share.
 */
module Storage {
  import opened Common
  import opened Jobs

  /** What a regular file holds: raw bytes, or a job record (its JSON text is not modelled). */
  datatype Content = Bytes(data: seq<byte>) | Record(job: JobRecord)

  /** A directory entry: a regular file with its last-modified time, or a directory. */
  datatype Entry = File(content: Content, mtime: real) | Dir

  type Files = map<Path, Entry>

  const InDir: Path := ["in"]
  const OutDir: Path := ["out"]
  const MetaDir: Path := ["meta"]

  predicate IsFile(files: Files, p: Path) {
    p in files && files[p].File?
  }

  predicate IsDir(files: Files, p: Path) {
    p in files && files[p].Dir?
  }

  /** `p.stat().st_size` for a file of bytes; any other entry counts as a failed `stat`. */
  function StatSize(files: Files, p: Path): Option<nat> {
    if IsFile(files, p) && files[p].content.Bytes? then Some(|files[p].content.data|) else None
  }

  /** `json.loads(p.read_text())`: fails unless `p` is a file holding a record. */
  function ReadRecord(files: Files, p: Path): Option<JobRecord> {
    if IsFile(files, p) && files[p].content.Record? then Some(files[p].content.job) else None
  }

  class ArtifactStore {
    var files: Files

    /**
     * Start-up of the API over whatever the data directory already holds:
     * each artifact directory that is missing is created, and nothing that
     * is there is touched.
     */
    constructor (prior: Files)
      ensures files.Keys == prior.Keys + {InDir, OutDir, MetaDir}
      ensures forall p :: p in prior ==> files[p] == prior[p]
      ensures forall p :: p in files && p !in prior ==> files[p] == Dir
    {
      var fs := prior;
      if InDir !in fs { fs := fs[InDir := Dir]; }
      if OutDir !in fs { fs := fs[OutDir := Dir]; }
      if MetaDir !in fs { fs := fs[MetaDir := Dir]; }
      files := fs;
    }

    /** Creates or truncates `p` and gives it `content`, stamped `now`. */
    method Write(p: Path, content: Content, now: real)
      modifies this
      ensures files == old(files)[p := File(content, now)]
    {
      files := files[p := File(content, now)];
    }

    /** Appends `chunk` to the file of bytes at `p`. */
    method Append(p: Path, chunk: seq<byte>, now: real)
      requires IsFile(files, p) && files[p].content.Bytes?
      modifies this
      ensures files == old(files)[p := File(Bytes(old(files)[p].content.data + chunk), now)]
    {
      files := files[p := File(Bytes(files[p].content.data + chunk), now)];
    }

    /** `p.unlink(missing_ok=True)`. */
    method Remove(p: Path)
      modifies this
      ensures files == old(files) - {p}
    {
      files := files - {p};
    }

    /** `p.mkdir(exist_ok=True)`: an entry already at `p` is left as it is. */
    method MakeDir(p: Path)
      modifies this
      ensures files == if p in old(files) then old(files) else old(files)[p := Dir]
    {
      if p !in files {
        files := files[p := Dir];
      }
    }
  }
}
