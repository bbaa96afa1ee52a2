/** The `Download` record: one track's transfer, as the download service
    creates it and the download delegate would update it. */
module Downloads {
  import opened Optional
  import opened Tracks

  /** A `URLSessionDownloadTask`, reduced to an opaque identifier and the URL
      it was created to fetch. */
  datatype DownloadTask = DownloadTask(id: nat, url: Url)

  /** `progress` stands for the `Float` fraction; only its initial value is
      ever set in the app. `resumeData` stands for the `Data` a paused task
      would hand back. */
  datatype Download = Download(
    track: Track,
    task: Option<DownloadTask>,
    isDownloading: bool,
    resumeData: Option<seq<bv8>>,
    progress: real)

  /** The documented range of `progress`: a fraction from 0.0 to 1.0. */
  predicate ProgressInRange(d: Download) {
    0.0 <= d.progress <= 1.0
  }

  /** `Download(track:)`: holds the given track, has no task, is not
      downloading, has no resume data and no progress. */
  function NewDownload(track: Track): (d: Download)
    ensures d.track == track
    ensures d.task.None? && !d.isDownloading
    ensures d.resumeData.None?
    ensures d.progress == 0.0 && ProgressInRange(d)
  {
    Download(track, None, false, None, 0.0)
  }

  /** The track's preview URL doubles as the Download's identity. */
  function Key(d: Download): Url {
    d.track.previewURL
  }
}
