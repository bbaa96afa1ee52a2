/** The search result record the query service produces and the download
    service consumes. Track.swift is not part of this model; its fields are
    the ones QueryService.swift passes to `Track(name:artist:previewURL:index:)`. */
module Tracks {

  /** A `URL` that `URL(string:)` accepted; `text` is the string it was built from. */
  datatype Url = Url(text: string)

  datatype Track = Track(name: string, artist: string, previewURL: Url, index: nat)
}
