/** The `videos` table, the raw-upload directory and the queue of
    transcodes scheduled with `setImmediate`: the state shared by the
    upload route (which inserts a row) and the transcoder (which writes
    its terminal status). */
module Schema {
  import opened Wrappers

  /** The `status` column: processing | ready | error. */
  datatype Status = Processing | Ready | Error

  /** A row of `videos`. The per-resolution playlist columns and
      `createdAt` are never written by the modelled code and are left out. */
  datatype VideoRecord = VideoRecord(
    id: string,
    originalName: string,
    status: Status,
    hlsPath: Option<string>,
    thumbPath: Option<string>,
    duration: Option<real>,
    width: Option<int>,
    height: Option<int>)

  /** What the upload route inserts: id, original name, `processing`, and
      every nullable column still null. */
  function NewRecord(id: string, originalName: string): (r: VideoRecord)
    ensures r.id == id && r.originalName == originalName && r.status == Processing
    ensures r.hlsPath.None? && r.thumbPath.None?
    ensures r.duration.None? && r.width.None? && r.height.None?
  {
    VideoRecord(id, originalName, Processing, None, None, None, None, None)
  }

  /** A transcode handed to `setImmediate`: `transcodeToHLS(videoId, rawPath)`. */
  datatype TranscodeJob = TranscodeJob(videoId: string, rawPath: string)

  /** Every row is stored under its own primary key. */
  ghost predicate KeyedById(records: map<string, VideoRecord>) {
    forall id | id in records :: records[id].id == id
  }

  /** The `.set({...})` argument of the two updates the transcoder makes. */
  datatype Patch =
    | StatusError
    | StatusReady(hlsPath: string, thumbPath: string, duration: real, width: int, height: int)

  /** A row after `.set(patch)`: the error patch changes only `status`; the
      ready patch sets status, both paths and the three metadata columns. */
  function Apply(patch: Patch, row: VideoRecord): (r: VideoRecord)
    ensures r.id == row.id && r.originalName == row.originalName
    ensures patch.StatusError? ==> r.status == Error && r.(status := row.status) == row
    ensures patch.StatusReady? ==>
      && r.status == Ready
      && r.hlsPath == Some(patch.hlsPath) && r.thumbPath == Some(patch.thumbPath)
      && r.duration == Some(patch.duration)
      && r.width == Some(patch.width) && r.height == Some(patch.height)
  {
    match patch
    case StatusError => row.(status := Error)
    case StatusReady(hls, thumb, d, w, h) =>
      row.(status := Ready, hlsPath := Some(hls), thumbPath := Some(thumb),
           duration := Some(d), width := Some(w), height := Some(h))
  }

  /** `db.update(videos).set(patch).where(eq(videos.id, id))`: the row with
      that id, if any, is patched; no other row changes, and no row is
      created when the id is unknown. */
  function UpdateWhere(records: map<string, VideoRecord>, id: string, patch: Patch)
    : (r: map<string, VideoRecord>)
    ensures r.Keys == records.Keys
    ensures forall k | k in records && k != id :: r[k] == records[k]
    ensures id in records ==> r[id] == Apply(patch, records[id])
    ensures KeyedById(records) ==> KeyedById(r)
  {
    if id in records then records[id := Apply(patch, records[id])] else records
  }

  /** The message SQLite gives for a second row with the same primary key. */
  const DuplicateKeyMessage := "UNIQUE constraint failed: videos.id"

  /** The server's persistent state: the `videos` rows by id, the files in
      the raw-upload directory, and the transcodes scheduled but not yet run. */
  class Server {
    var records: map<string, VideoRecord>
    var rawFiles: set<string>
    var scheduled: seq<TranscodeJob>

    ghost predicate Valid()
      reads this
    {
      KeyedById(records)
    }

    /** The lifecycle the route and the transcoder keep between them: the
        row of every scheduled job exists and is still `processing`, and no
        id is scheduled twice, so each row is written to a terminal status
        at most once. */
    ghost predicate JobsPending()
      reads this
    {
      && (forall j | 0 <= j < |scheduled| ::
            scheduled[j].videoId in records && records[scheduled[j].videoId].status == Processing)
      && (forall i, j | 0 <= i < j < |scheduled| :: scheduled[i].videoId != scheduled[j].videoId)
    }

    constructor ()
      ensures Valid() && JobsPending()
      ensures records == map[] && rawFiles == {} && scheduled == []
    {
      records := map[];
      rawFiles := {};
      scheduled := [];
    }

    /** `writeFileSync(path, …)`; `fault` is the error the file system
        raises, if it raises one. */
    method WriteRawFile(path: string, fault: Option<string>) returns (err: Option<string>)
      modifies this
      ensures err == fault
      ensures rawFiles == if fault.None? then old(rawFiles) + {path} else old(rawFiles)
      ensures records == old(records) && scheduled == old(scheduled)
    {
      err := fault;
      if fault.None? {
        rawFiles := rawFiles + {path};
      }
    }

    /** `db.insert(videos).values(row).run()`: fails with `fault` when the
        database raises one, and on a primary-key clash; otherwise adds the row. */
    method Insert(row: VideoRecord, fault: Option<string>) returns (err: Option<string>)
      requires Valid()
      modifies this
      ensures Valid()
      ensures err == if fault.Some? then fault
                     else if row.id in old(records) then Some(DuplicateKeyMessage)
                     else None
      ensures records == if err.None? then old(records)[row.id := row] else old(records)
      ensures rawFiles == old(rawFiles) && scheduled == old(scheduled)
    {
      if fault.Some? {
        err := fault;
      } else if row.id in records {
        err := Some(DuplicateKeyMessage);
      } else {
        records := records[row.id := row];
        err := None;
      }
    }

    /** `db.update(videos).set(patch).where(eq(videos.id, id)).run()`:
        throws `fault` when the database raises one and changes nothing;
        otherwise patches the row with that id, if there is one. */
    method Update(id: string, patch: Patch, fault: Option<string>) returns (err: Option<string>)
      requires Valid()
      modifies this`records
      ensures Valid()
      ensures err == fault
      ensures records == if fault.None? then UpdateWhere(old(records), id, patch) else old(records)
    {
      err := fault;
      if fault.None? {
        records := UpdateWhere(records, id, patch);
      }
    }

    /** `setImmediate(() => transcodeToHLS(job.videoId, job.rawPath))` */
    method Schedule(job: TranscodeJob)
      modifies this`scheduled
      ensures scheduled == old(scheduled) + [job]
    {
      scheduled := scheduled + [job];
    }
  }
}
