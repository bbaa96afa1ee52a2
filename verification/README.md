# HalfTunes search and download registry, in Dafny

HalfTunes searches the iTunes catalogue and downloads song previews. This
project models the two sequential parts of it:

- **Search results** (`QueryService`): the query string sent to
  `https://itunes.apple.com/search`, and the completion handler's success
  gate. It also models `updateSearchResults`, which clears `tracks`, looks
  for an array under `"results"`, turns every well-formed element into a
  numbered `Track` and appends one diagnostic line to `errorMessage` for
  every element it rejects.
- **Active downloads** (`Downloads`, `DownloadService`): the `Download`
  record and its initial values. `startDownload` stores a fresh `Download`
  with a task and `isDownloading` set in `activeDownloads`, keyed by the
  track's preview URL. The `pauseDownload`, `cancelDownload` and
  `resumeDownload` stubs change nothing.

Files: `optional.dfy` (Swift optionals), `json.dfy` (decoded JSON and the
`as?` lookups), `track.dfy` (`Url`, `Track`), `query_service.dfy`,
`download.dfy`, `download_service.dfy`.

Foreign calls are parameters:
- The result of `JSONSerialization.jsonObject` is a `Decoded` value: either
  `Malformed(description)` or `Value(json)`.
- `URL(string:)` is the predicate `validUrl`.
- The identifier of the task that `downloadTask(with:)` creates is the
  `taskId` argument of `StartDownload`.
- Transport errors are their `localizedDescription`.

Track.swift is not part of this model. The fields of `Track` are the ones
QueryService.swift passes to its initialiser.

## Model

| member | source | states |
|---|---|---|
| `Json.StringField` | HalfTunes/QueryService.swift:107-110 | `dict[key] as? String` succeeds exactly when the key holds a string, and yields that string |
| `Json.ArrayField` | HalfTunes/QueryService.swift:100 | `dict[key] as? [Any]` succeeds exactly when the key holds an array, and yields that array |
| `QueryService.SearchQuery` | HalfTunes/QueryService.swift:56 | the query is the fixed `media=music&entity=song&term=` prefix followed by exactly the search term |
| `QueryService.SearchTermOf` | HalfTunes/QueryService.swift:56 | a query has the app's shape iff it starts with the fixed prefix, and then it is the query of the recovered term |
| `QueryService.SearchQueryRoundTrip` | HalfTunes/QueryService.swift:56 | the search term can be read back from the query built from it |
| `QueryService.SearchQueryInjective` | HalfTunes/QueryService.swift:56 | different search terms give different queries |
| `QueryService.ParseTrackDictionary` | HalfTunes/QueryService.swift:106-110 | an element yields track fields iff it is a dictionary with a string `previewUrl` forming a valid URL and string `trackName` and `artistName`; the fields are exactly those strings |
| `QueryService.RejectedFrom` | HalfTunes/QueryService.swift:113-115 | the number of rejected elements never exceeds the number of elements walked |
| `QueryService.ExtractFrom` | HalfTunes/QueryService.swift:104-116 | tracks made plus elements rejected equals the number of elements walked |
| `QueryService.ExtractIndices` | HalfTunes/QueryService.swift:104-112 | the k-th track carries counter value start + k, because the counter advances only on success |
| `QueryService.AcceptedPositions` | HalfTunes/QueryService.swift:105-110 | the positions holding a track dictionary, strictly increasing, containing every such position and only those |
| `QueryService.ExtractFollowsPositions` | HalfTunes/QueryService.swift:105-112 | the k-th track is built from the k-th accepted element, with index start + k |
| `QueryService.ConsPositions` | HalfTunes/QueryService.swift:105-112 | an accepted element placed in front keeps tracks and accepted positions in step |
| `QueryService.ExtractTracksCharacterised` | HalfTunes/QueryService.swift:104-116 | the tracks are exactly the accepted elements, in their original relative order, with indices 0..n-1; tracks plus rejections equals the array length |
| `QueryService.StepFrom` | HalfTunes/QueryService.swift:106-115 | one loop step: an accepted element adds one track and advances the counter; a rejected one adds one rejection and no track |
| `QueryService.RepeatGrows` | HalfTunes/QueryService.swift:114 | appending one more diagnostic line to a message of n lines gives a message of n + 1 lines |
| `QueryService.CollectTracks` | HalfTunes/QueryService.swift:104-116 | the loop as written, for any element parser, produces the extracted tracks, indexed by position, and appends one "Problem parsing trackDictionary" line per rejected element |
| `QueryService.WithResults` | HalfTunes/QueryService.swift:104-116 | once a results array is found, the stored tracks are numbered 0, 1, ..., n-1 |
| `QueryService.ResultsOf` | HalfTunes/QueryService.swift:100 | a results array is found iff the top level is a dictionary whose `"results"` holds an array |
| `QueryService.UpdateSearchResults` | HalfTunes/QueryService.swift:89-117 | `errorMessage` only grows; a decoding error or a missing results array gives no tracks and exactly one line; otherwise the tracks are indexed 0..n-1 and one line is appended per rejected element |
| `QueryService.PreviousTracksDiscarded` | HalfTunes/QueryService.swift:91 | the tracks after an update do not depend on the tracks before it |
| `QueryService.NoResultsArrayMeansOneMessage` | HalfTunes/QueryService.swift:93-103 | without a results array, `tracks` ends empty and exactly one diagnostic line is appended |
| `QueryService.UpdateSearchResultsAsWritten` | HalfTunes/QueryService.swift:94-102 | the code as written traps exactly when the body decodes to a non-dictionary; otherwise it agrees with `UpdateSearchResults` |
| `QueryService.TopLevelArrayTraps` | HalfTunes/QueryService.swift:94-100 | a body decoding to `[]` traps as written, and the corrected update reports a missing results array |
| `QueryService.DecideCompletion` | HalfTunes/QueryService.swift:71-76 | the handler reports a transport failure iff there is an error; it delivers iff there is no error, data is present and the response is HTTP with status 200 |
| `QueryService.CompleteDataTask` | HalfTunes/QueryService.swift:67-83 | a transport error only appends one line; on success the results are parsed and the new tracks and message are delivered; any other outcome changes and delivers nothing |
| `QueryService.ErrorMessageOnlyGrows` | HalfTunes/QueryService.swift:72-114 | over any series of completions, the earlier `errorMessage` is a prefix of the later one |
| `QueryService.PrefixTransitive` | HalfTunes/QueryService.swift:72-114 | helper about any three strings: a prefix of a prefix is a prefix; it chains the per-completion growth in `ErrorMessageOnlyGrows` |
| `Downloads.NewDownload` | HalfTunes/Download.swift:13-24 | a new Download holds exactly the given track, no task, is not downloading, has no resume data and progress 0, which lies in 0.0 to 1.0 |
| `DownloadService.SameUrlSharesEntry` | HalfTunes/Download.swift:12 | two starts from an empty registry leave exactly one entry iff the two tracks have the same preview URL, so a Download's identity in the registry is its track's URL |
| `DownloadService.StartDownload` | HalfTunes/DownloadService.swift:45-56 | after a start there is an entry under the track's URL: it wraps the track, has a task for that URL, is downloading, has no resume data and progress 0; other entries are unchanged; the every-key-is-its-own-URL invariant is kept |
| `DownloadService.PauseDownload` | HalfTunes/DownloadService.swift:60-62 | pausing leaves the registry unchanged |
| `DownloadService.CancelDownload` | HalfTunes/DownloadService.swift:64-66 | cancelling leaves the registry unchanged |
| `DownloadService.ResumeDownload` | HalfTunes/DownloadService.swift:68-70 | resuming leaves the registry unchanged |
| `DownloadService.RestartReplaces` | HalfTunes/DownloadService.swift:45-56 | starting the same track twice gives the registry of one start with the second task: one entry, the later Download |
| `DownloadService.SharedUrlKeepsLater` | HalfTunes/DownloadService.swift:55 | two tracks with one preview URL share one entry, and it holds the later track and task |
| `DownloadService.CallsKeepRegistryWellKeyed` | HalfTunes/DownloadService.swift:38-70 | over any series of calls, every key stays its entry's own preview URL, and the keys are the earlier ones plus the URLs started |
| `DownloadService.StubsChangeNothing` | HalfTunes/DownloadService.swift:60-70 | any series of pause, cancel and resume calls leaves the registry as it was |

## Left out

- Creating, resuming and cancelling `URLSession` tasks, and the `defer` that clears `dataTask`. This is network I/O. A download task is an identifier plus the URL it fetches.
- The cancel of the previous data task at the start of `getSearchResults`, the `DispatchQueue.main.async` hand-off, and races between an old callback and a new search. The model is sequential.
- `URLComponents` escaping and the `guard let url` early return. The query string is modelled before escaping.
- `JSONSerialization` and `URL(string:)`. They are foreign calls, modelled as the `Decoded` input and the `validUrl` predicate. JSON numbers are integers here because their values are never read.
- The `Float` type of `progress`. It is a `real`, and only its initial value is stated, because nothing in the app computes it.
- Pause, resume and cancel behaviour, resume data and the download-finished delegate. The app leaves these as empty stubs or a `print`.
- The search bar and table view code. It is presentation.
- QueryService.CompleteDataTask: uses the corrected `UpdateSearchResults`. On a 200 response whose body decodes to a non-dictionary, such as `[]`, the app as written traps and never calls `completion`, but this member delivers no tracks and one "Dictionary does not contain results key" line (see Findings).
- QueryService.ErrorMessageOnlyGrows: is stated over `CompleteDataTask`, so it also uses the corrected update. As written, a non-dictionary body ends the process instead of growing the message.
- DownloadService.RestartReplaces: covers the registry only. A second start for the same URL forgets the first Download, but the first task was resumed and is never cancelled, so two transfers run and only the second is tracked. Transfers are not modelled.

## Findings

| source | as written | input that shows it | evidently intended | confidence | as-written member | corrected member |
|---|---|---|---|---|---|---|
| HalfTunes/QueryService.swift:94-100 | the cast `as? JSONDictionary` turns any non-dictionary top level into `nil`, and `response!` then traps | a 200 response whose body is `[]` (a top-level JSON array, which the decoder accepts) | reject the payload with one diagnostic line and no tracks, as for a dictionary without `"results"` | high; not executed | `QueryService.UpdateSearchResultsAsWritten` (shown by `QueryService.TopLevelArrayTraps`) | `QueryService.UpdateSearchResults` |

The rest of the model uses the corrected `UpdateSearchResults`. For a
non-dictionary top level it appends "Dictionary does not contain results key".
