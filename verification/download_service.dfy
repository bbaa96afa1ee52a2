/** The download service's registry, `activeDownloads`, and the operations
    that the track cells call on it. `downloadTask(with:)` and `resume()` on
    the session are I/O: the identifier of the task the session creates is a
    parameter of `StartDownload`. */
module DownloadService {
  import opened Optional
  import opened Tracks
  import opened Downloads

  /** `activeDownloads`: the active Download for each preview URL. */
  type ActiveDownloads = map<Url, Download>

  /** Every entry is filed under its own track's preview URL. */
  ghost predicate WellKeyed(active: ActiveDownloads) {
    forall u :: u in active ==> Key(active[u]) == u
  }

  /** `startDownload`: a fresh Download for `track`, given a task for the
      track's preview URL and marked as downloading, stored under that URL.
      Nothing checks for an entry already there. */
  function StartDownload(active: ActiveDownloads, track: Track, taskId: nat): (r: ActiveDownloads)
    ensures r.Keys == active.Keys + {track.previewURL}
    ensures var d := r[track.previewURL];
            && d.track == track
            && d.task == Some(DownloadTask(taskId, track.previewURL))
            && d.isDownloading
            && d.resumeData.None?
            && d.progress == 0.0
    ensures forall u :: u in active && u != track.previewURL ==> r[u] == active[u]
    ensures WellKeyed(active) ==> WellKeyed(r)
  {
    var download := NewDownload(track);
    var download := download.(task := Some(DownloadTask(taskId, track.previewURL)));
    var download := download.(isDownloading := true);
    active[Key(download) := download]
  }

  /** `pauseDownload` is an empty stub: it changes nothing. */
  function PauseDownload(active: ActiveDownloads, track: Track): (r: ActiveDownloads)
    ensures r == active
  {
    active
  }

  /** `cancelDownload` is an empty stub: it changes nothing. */
  function CancelDownload(active: ActiveDownloads, track: Track): (r: ActiveDownloads)
    ensures r == active
  {
    active
  }

  /** `resumeDownload` is an empty stub: it changes nothing. */
  function ResumeDownload(active: ActiveDownloads, track: Track): (r: ActiveDownloads)
    ensures r == active
  {
    active
  }

  /** Starting a track again replaces the first Download in the registry: the
      registry is the one a single start with the later task would have
      produced. Only the registry forgets the first Download. Its task was
      resumed and is never cancelled, so it keeps transferring untracked. */
  lemma RestartReplaces(active: ActiveDownloads, track: Track, first: nat, second: nat)
    ensures StartDownload(StartDownload(active, track, first), track, second)
         == StartDownload(active, track, second)
  {
  }

  /** Two different tracks that share a preview URL share one entry, and the
      later start wins. */
  lemma SharedUrlKeepsLater(active: ActiveDownloads, a: Track, b: Track, first: nat, second: nat)
    requires a.previewURL == b.previewURL
    ensures var r := StartDownload(StartDownload(active, a, first), b, second);
            && r.Keys == active.Keys + {b.previewURL}
            && r[b.previewURL].track == b
            && r[b.previewURL].task == Some(DownloadTask(second, b.previewURL))
  {
  }

  /** A Download's identity is its track's preview URL: starting two tracks
      from an empty registry leaves a single entry exactly when the two
      tracks share a preview URL. */
  lemma SameUrlSharesEntry(a: Track, b: Track, first: nat, second: nat)
    ensures |StartDownload(StartDownload(map[], a, first), b, second)| == 1 <==> a.previewURL == b.previewURL
  {
    var r := StartDownload(StartDownload(map[], a, first), b, second);
    if a.previewURL == b.previewURL {
      assert r.Keys == {a.previewURL};
    } else {
      assert r.Keys == {a.previewURL, b.previewURL};
    }
  }

  /** A call the track cells make on the service. */
  datatype Call = Start(track: Track, taskId: nat) | Pause(track: Track) | Cancel(track: Track) | Resume(track: Track)

  function Apply(active: ActiveDownloads, call: Call): ActiveDownloads {
    match call
    case Start(track, taskId) => StartDownload(active, track, taskId)
    case Pause(track) => PauseDownload(active, track)
    case Cancel(track) => CancelDownload(active, track)
    case Resume(track) => ResumeDownload(active, track)
  }

  function ApplyAll(active: ActiveDownloads, calls: seq<Call>): ActiveDownloads
    decreases |calls|
  {
    if calls == [] then active else ApplyAll(Apply(active, calls[0]), calls[1..])
  }

  /** The preview URLs of the tracks started by `calls`. */
  ghost function StartedUrls(calls: seq<Call>): set<Url> {
    set i | 0 <= i < |calls| && calls[i].Start? :: calls[i].track.previewURL
  }

  /** Whatever the cells call, in whatever order, every entry stays filed
      under its own URL, and (since nothing ever removes an entry) the
      registry holds exactly the URLs it held before plus those started. */
  lemma {:induction false} CallsKeepRegistryWellKeyed(active: ActiveDownloads, calls: seq<Call>)
    requires WellKeyed(active)
    ensures WellKeyed(ApplyAll(active, calls))
    ensures ApplyAll(active, calls).Keys == active.Keys + StartedUrls(calls)
    decreases |calls|
  {
    if calls != [] {
      var next := Apply(active, calls[0]);
      CallsKeepRegistryWellKeyed(next, calls[1..]);
      assert StartedUrls(calls)
          == (if calls[0].Start? then {calls[0].track.previewURL} else {}) + StartedUrls(calls[1..]) by {
        forall u | u in StartedUrls(calls)
          ensures u in (if calls[0].Start? then {calls[0].track.previewURL} else {}) + StartedUrls(calls[1..])
        {
          var i :| 0 <= i < |calls| && calls[i].Start? && calls[i].track.previewURL == u;
          if i > 0 {
            assert calls[1..][i - 1] == calls[i];
          }
        }
        forall u | u in StartedUrls(calls[1..])
          ensures u in StartedUrls(calls)
        {
          var i :| 0 <= i < |calls[1..]| && calls[1..][i].Start? && calls[1..][i].track.previewURL == u;
          assert calls[i + 1] == calls[1..][i];
        }
      }
    } else {
      assert StartedUrls(calls) == {};
    }
  }

  /** Pause, cancel and resume calls alone, in any number, leave the registry
      exactly as it was. */
  lemma {:induction false} StubsChangeNothing(active: ActiveDownloads, calls: seq<Call>)
    requires forall i :: 0 <= i < |calls| ==> !calls[i].Start?
    ensures ApplyAll(active, calls) == active
    decreases |calls|
  {
    if calls != [] {
      StubsChangeNothing(Apply(active, calls[0]), calls[1..]);
    }
  }
}
