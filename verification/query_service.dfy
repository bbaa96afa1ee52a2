/** The search half of HalfTunes: building the iTunes query, deciding whether a
    finished data task delivers anything, and turning a decoded response into
    numbered `Track`s plus diagnostic lines appended to `errorMessage`.

    `JSONSerialization` is represented by its outcome (`Decoded`), and
    `URL(string:)` by the predicate `validUrl`, which every operation takes as
    a parameter. */
module QueryService {
  import opened Optional
  import opened Json
  import opened Tracks

  /** The two stored properties every search rewrites. */
  datatype SearchState = SearchState(tracks: seq<Track>, errorMessage: string)

  /** What `JSONSerialization.jsonObject(with:options:)` made of the body:
      a thrown error (with its localized description) or a decoded value. */
  datatype Decoded = Malformed(description: string) | Value(json: Json)

  // ---------------------------------------------------------------------------
  // Diagnostic lines

  function ParseProblem(): string { "Problem parsing trackDictionary\n" }
  function MissingResults(): string { "Dictionary does not contain results key\n" }

  function SerializationError(description: string): string {
    "JSONSerialization error: " + description + "\n"
  }

  function DataTaskError(description: string): string {
    "DataTask error: " + description + "\n"
  }

  /** `n` copies of `line`, one after another. */
  function Repeat(line: string, n: nat): string {
    if n == 0 then "" else Repeat(line, n - 1) + line
  }

  // ---------------------------------------------------------------------------
  // The query string

  const QueryPrefix: string := "media=music&entity=song&term="

  /** The query set on the `URLComponents` of the iTunes search endpoint; the term follows a
      fixed prefix that asks for songs in the music media type. */
  function SearchQuery(term: string): (query: string)
    ensures QueryPrefix <= query
    ensures query[|QueryPrefix|..] == term
  {
    QueryPrefix + term
  }

  /** Recovers the search term from a query string of the app's shape. */
  function SearchTermOf(query: string): (term: Option<string>)
    ensures term.Some? <==> QueryPrefix <= query
    ensures term.Some? ==> SearchQuery(term.value) == query
  {
    if QueryPrefix <= query then Some(query[|QueryPrefix|..]) else None
  }

  lemma SearchQueryRoundTrip(term: string)
    ensures SearchTermOf(SearchQuery(term)) == Some(term)
  {
  }

  lemma SearchQueryInjective(a: string, b: string)
    ensures SearchQuery(a) == SearchQuery(b) <==> a == b
  {
    SearchQueryRoundTrip(a);
    SearchQueryRoundTrip(b);
  }

  // ---------------------------------------------------------------------------
  // One element of the "results" array

  /** The values an accepted element contributes to its Track. */
  datatype TrackFields = TrackFields(name: string, artist: string, previewURL: Url)

  /** An element is a track dictionary when it is a dictionary whose
      "previewUrl" is a string forming a valid URL and whose "trackName" and
      "artistName" are strings. */
  ghost predicate IsTrackDictionary(element: Json, validUrl: string -> bool) {
    && element.Object?
    && "previewUrl" in element.fields && element.fields["previewUrl"].Str?
    && validUrl(element.fields["previewUrl"].s)
    && "trackName" in element.fields && element.fields["trackName"].Str?
    && "artistName" in element.fields && element.fields["artistName"].Str?
  }

  /** The chain of optional bindings applied to each element. */
  function ParseTrackDictionary(element: Json, validUrl: string -> bool): (r: Option<TrackFields>)
    ensures r.Some? <==> IsTrackDictionary(element, validUrl)
    ensures r.Some? ==>
              && element.fields["previewUrl"] == Str(r.value.previewURL.text)
              && element.fields["trackName"] == Str(r.value.name)
              && element.fields["artistName"] == Str(r.value.artist)
  {
    if !element.Object? then None
    else
      var previewURLString :- StringField(element.fields, "previewUrl");
      if !validUrl(previewURLString) then None
      else
        var name :- StringField(element.fields, "trackName");
        var artist :- StringField(element.fields, "artistName");
        Some(TrackFields(name, artist, Url(previewURLString)))
  }

  function TrackAt(f: TrackFields, index: nat): Track {
    Track(f.name, f.artist, f.previewURL, index)
  }

  // ---------------------------------------------------------------------------
  // The whole "results" array
  //
  // The walk is stated for any element parser; the app's parser is
  // `TrackParser(validUrl)`.

  /** How one element is turned into track fields, or rejected. */
  type ElementParser = Json -> Option<TrackFields>

  function TrackParser(validUrl: string -> bool): ElementParser {
    element => ParseTrackDictionary(element, validUrl)
  }

  /** Number of elements from position `from` on that the parser rejects. */
  function RejectedFrom(results: seq<Json>, parse: ElementParser, from: nat): (n: nat)
    requires from <= |results|
    ensures n <= |results| - from
    decreases |results| - from
  {
    if from == |results| then 0
    else (if parse(results[from]).None? then 1 else 0) + RejectedFrom(results, parse, from + 1)
  }

  /** The tracks made from position `from` on, when the counter stands at
      `index`: the counter is used for, and advanced by, accepted elements only. */
  function ExtractFrom(results: seq<Json>, parse: ElementParser, from: nat, index: nat): (r: seq<Track>)
    requires from <= |results|
    ensures |r| + RejectedFrom(results, parse, from) == |results| - from
    decreases |results| - from
  {
    if from == |results| then []
    else
      match parse(results[from])
      case Some(f) => [TrackAt(f, index)] + ExtractFrom(results, parse, from + 1, index + 1)
      case None => ExtractFrom(results, parse, from + 1, index)
  }

  /** One step of the walk: how the element at `i` contributes. */
  lemma StepFrom(results: seq<Json>, parse: ElementParser, i: nat, index: nat)
    requires i < |results|
    ensures parse(results[i]).Some? ==>
              && ExtractFrom(results, parse, i, index)
                 == [TrackAt(parse(results[i]).value, index)] + ExtractFrom(results, parse, i + 1, index + 1)
              && RejectedFrom(results, parse, i) == RejectedFrom(results, parse, i + 1)
    ensures parse(results[i]).None? ==>
              && ExtractFrom(results, parse, i, index) == ExtractFrom(results, parse, i + 1, index)
              && RejectedFrom(results, parse, i) == 1 + RejectedFrom(results, parse, i + 1)
  {
  }

  /** The counter values handed out are consecutive from `index`. */
  lemma {:induction false} ExtractIndices(results: seq<Json>, parse: ElementParser, from: nat, index: nat)
    requires from <= |results|
    ensures var ts := ExtractFrom(results, parse, from, index);
            forall k :: 0 <= k < |ts| ==> ts[k].index == index + k
    decreases |results| - from
  {
    if from < |results| {
      StepFrom(results, parse, from, index);
      ExtractIndices(results, parse, from + 1, index + 1);
      ExtractIndices(results, parse, from + 1, index);
    }
  }

  function ExtractTracks(results: seq<Json>, validUrl: string -> bool): seq<Track> {
    ExtractFrom(results, TrackParser(validUrl), 0, 0)
  }

  function Rejected(results: seq<Json>, validUrl: string -> bool): nat {
    RejectedFrom(results, TrackParser(validUrl), 0)
  }

  /** Independent description of which elements are kept: the positions,
      from `from` on, that the parser accepts, in increasing order. */
  ghost function AcceptedPositions(results: seq<Json>, parse: ElementParser, from: nat): (ps: seq<nat>)
    requires from <= |results|
    ensures forall k :: 0 <= k < |ps| ==> from <= ps[k] < |results| && parse(results[ps[k]]).Some?
    ensures forall k, l :: 0 <= k < l < |ps| ==> ps[k] < ps[l]
    ensures forall p :: from <= p < |results| && parse(results[p]).Some? ==> p in ps
    decreases |results| - from
  {
    if from == |results| then []
    else if parse(results[from]).Some? then [from] + AcceptedPositions(results, parse, from + 1)
    else AcceptedPositions(results, parse, from + 1)
  }

  /** The k-th track made from position `from` on comes from the k-th
      accepted position and carries counter value `index + k`. */
  lemma {:induction false} ExtractFollowsPositions(results: seq<Json>, parse: ElementParser, from: nat, index: nat)
    requires from <= |results|
    ensures var ts := ExtractFrom(results, parse, from, index);
            var ps := AcceptedPositions(results, parse, from);
            && |ts| == |ps|
            && forall k :: 0 <= k < |ts| ==> ts[k] == TrackAt(parse(results[ps[k]]).value, index + k)
    decreases |results| - from
  {
    if from < |results| {
      var ts := ExtractFrom(results, parse, from, index);
      var ps := AcceptedPositions(results, parse, from);
      StepFrom(results, parse, from, index);
      if parse(results[from]).Some? {
        ExtractFollowsPositions(results, parse, from + 1, index + 1);
        var head := TrackAt(parse(results[from]).value, index);
        var tail := ExtractFrom(results, parse, from + 1, index + 1);
        var rest := AcceptedPositions(results, parse, from + 1);
        assert ts == [head] + tail;
        assert ps == [from] + rest;
        ConsPositions(results, parse, from, index, tail, rest);
      } else {
        ExtractFollowsPositions(results, parse, from + 1, index);
        assert ts == ExtractFrom(results, parse, from + 1, index);
        assert ps == AcceptedPositions(results, parse, from + 1);
      }
    }
  }

  /** Putting the element at `from` in front of the tracks and positions
      that follow it keeps them in step. */
  lemma ConsPositions(results: seq<Json>, parse: ElementParser, from: nat, index: nat,
                      tail: seq<Track>, rest: seq<nat>)
    requires from < |results| && parse(results[from]).Some?
    requires |tail| == |rest|
    requires forall k :: 0 <= k < |rest| ==> rest[k] < |results| && parse(results[rest[k]]).Some?
    requires forall k :: 0 <= k < |tail| ==> tail[k] == TrackAt(parse(results[rest[k]]).value, index + 1 + k)
    ensures var ts := [TrackAt(parse(results[from]).value, index)] + tail;
            var ps := [from] + rest;
            forall k :: 0 <= k < |ts| ==>
              ps[k] < |results| && parse(results[ps[k]]).Some? && ts[k] == TrackAt(parse(results[ps[k]]).value, index + k)
  {
    var ts := [TrackAt(parse(results[from]).value, index)] + tail;
    var ps := [from] + rest;
    forall k | 0 <= k < |ts|
      ensures ps[k] < |results| && parse(results[ps[k]]).Some? && ts[k] == TrackAt(parse(results[ps[k]]).value, index + k)
    {
      if k > 0 {
        assert ts[k] == tail[k - 1];
        assert ps[k] == rest[k - 1];
      }
    }
  }

  /** The extracted tracks are exactly the track dictionaries of `results`,
      in their original relative order, numbered 0, 1, ..., n-1, and every
      other element is counted as rejected. */
  lemma ExtractTracksCharacterised(results: seq<Json>, validUrl: string -> bool)
    ensures var ts := ExtractTracks(results, validUrl);
            var ps := AcceptedPositions(results, TrackParser(validUrl), 0);
            && |ts| == |ps|
            && |ts| + Rejected(results, validUrl) == |results|
            && (forall k :: 0 <= k < |ts| ==> ts[k].index == k)
            && (forall k :: 0 <= k < |ts| ==> ts[k] == TrackAt(ParseTrackDictionary(results[ps[k]], validUrl).value, k))
            && (forall k, l :: 0 <= k < l < |ps| ==> ps[k] < ps[l])
            && (forall p :: 0 <= p < |results| ==> (p in ps <==> IsTrackDictionary(results[p], validUrl)))
  {
    var parse := TrackParser(validUrl);
    ExtractFollowsPositions(results, parse, 0, 0);
    var ps := AcceptedPositions(results, parse, 0);
    forall p | 0 <= p < |results|
      ensures p in ps <==> IsTrackDictionary(results[p], validUrl)
    {
      assert parse(results[p]) == ParseTrackDictionary(results[p], validUrl);
    }
  }

  /** The loop as the app writes it: walk the array once, append a Track and
      advance the counter on success, append a diagnostic line otherwise. */
  method CollectTracks(results: seq<Json>, parse: ElementParser, errorMessage: string)
    returns (tracks: seq<Track>, message: string)
    ensures tracks == ExtractFrom(results, parse, 0, 0)
    ensures forall k :: 0 <= k < |tracks| ==> tracks[k].index == k
    ensures message == errorMessage + Repeat(ParseProblem(), RejectedFrom(results, parse, 0))
  {
    tracks := [];
    message := errorMessage;
    var index: nat := 0;
    ghost var rejected: nat := 0;
    var line := ParseProblem();
    var i := 0;
    while i < |results|
      invariant 0 <= i <= |results|
      invariant index == |tracks| && index + rejected == i
      invariant ExtractFrom(results, parse, 0, 0) == tracks + ExtractFrom(results, parse, i, index)
      invariant RejectedFrom(results, parse, 0) == rejected + RejectedFrom(results, parse, i)
      invariant message == errorMessage + Repeat(line, rejected)
    {
      StepFrom(results, parse, i, index);
      match parse(results[i]) {
        case Some(f) =>
          var track := TrackAt(f, index);
          AppendAssociates(tracks, track, ExtractFrom(results, parse, i + 1, index + 1));
          tracks := tracks + [track];
          index := index + 1;
        case None =>
          RepeatGrows(errorMessage, message, line, rejected);
          message := message + line;
          rejected := rejected + 1;
      }
      i := i + 1;
    }
    ExtractIndices(results, parse, 0, 0);
  }

  lemma AppendAssociates(tracks: seq<Track>, track: Track, rest: seq<Track>)
    ensures tracks + ([track] + rest) == (tracks + [track]) + rest
  {
  }

  lemma RepeatGrows(prefix: string, message: string, line: string, n: nat)
    requires message == prefix + Repeat(line, n)
    ensures message + line == prefix + Repeat(line, n + 1)
  {
  }

  // ---------------------------------------------------------------------------
  // Handling a decoded response

  /** `response!["results"] as? [Any]`, once `response` is known to be a
      dictionary; anything else at the top level has no results array. */
  function ResultsOf(json: Json): (r: Option<seq<Json>>)
    ensures r.Some? <==> json.Object? && "results" in json.fields && json.fields["results"].Array?
    ensures r.Some? ==> json.fields["results"] == Array(r.value)
  {
    if json.Object? then ArrayField(json.fields, "results") else None
  }

  /** The state after walking a results array: the extracted tracks, numbered
      from 0, and one diagnostic line per rejected element. */
  function WithResults(errorMessage: string, results: seq<Json>, validUrl: string -> bool): (r: SearchState)
    ensures forall k :: 0 <= k < |r.tracks| ==> r.tracks[k].index == k
  {
    var tracks := ExtractTracks(results, validUrl);
    ExtractIndices(results, TrackParser(validUrl), 0, 0);
    assert tracks == ExtractFrom(results, TrackParser(validUrl), 0, 0);
    assert forall k :: 0 <= k < |tracks| ==> tracks[k].index == k;
    SearchState(tracks,
                errorMessage + Repeat(ParseProblem(), Rejected(results, validUrl)))
  }

  /** `updateSearchResults`, with a top level that is not a dictionary
      treated like a dictionary without a results array. */
  function UpdateSearchResults(s: SearchState, d: Decoded, validUrl: string -> bool): (r: SearchState)
    ensures s.errorMessage <= r.errorMessage
    ensures d.Malformed? ==> r == SearchState([], s.errorMessage + SerializationError(d.description))
    ensures d.Value? && ResultsOf(d.json).None? ==> r == SearchState([], s.errorMessage + MissingResults())
    ensures d.Value? && ResultsOf(d.json).Some? ==>
              var results := ResultsOf(d.json).value;
              && r.tracks == ExtractTracks(results, validUrl)
              && |r.tracks| + Rejected(results, validUrl) == |results|
              && (forall k :: 0 <= k < |r.tracks| ==> r.tracks[k].index == k)
              && r.errorMessage == s.errorMessage + Repeat(ParseProblem(), |results| - |r.tracks|)
  {
    match d
    case Malformed(description) => SearchState([], s.errorMessage + SerializationError(description))
    case Value(json) =>
      match ResultsOf(json)
      case None => SearchState([], s.errorMessage + MissingResults())
      case Some(results) =>
        WithResults(s.errorMessage, results, validUrl)
  }

  /** The previous search's tracks never survive: the new list depends only
      on the decoded response. */
  lemma PreviousTracksDiscarded(s1: SearchState, s2: SearchState, d: Decoded, validUrl: string -> bool)
    ensures UpdateSearchResults(s1, d, validUrl).tracks == UpdateSearchResults(s2, d, validUrl).tracks
  {
  }

  /** Every way of not finding a results array leaves no tracks and appends
      exactly one line, which is one of the two top-level diagnostics. */
  lemma NoResultsArrayMeansOneMessage(s: SearchState, d: Decoded, validUrl: string -> bool)
    requires d.Malformed? || ResultsOf(d.json).None?
    ensures var r := UpdateSearchResults(s, d, validUrl);
            && r.tracks == []
            && exists line :: r.errorMessage == s.errorMessage + line
                           && (line == MissingResults() || (d.Malformed? && line == SerializationError(d.description)))
  {
    var r := UpdateSearchResults(s, d, validUrl);
    if d.Malformed? {
      assert r.errorMessage == s.errorMessage + SerializationError(d.description);
    } else {
      assert r.errorMessage == s.errorMessage + MissingResults();
    }
  }

  /** What the code as written does: `response!` traps when the top level
      decoded to something other than a dictionary. */
  datatype Outcome = Completed(state: SearchState) | Trapped

  function UpdateSearchResultsAsWritten(s: SearchState, d: Decoded, validUrl: string -> bool): (r: Outcome)
    ensures r.Trapped? <==> d.Value? && !d.json.Object?
    ensures r.Completed? ==> r.state == UpdateSearchResults(s, d, validUrl)
  {
    match d
    case Malformed(description) => Completed(SearchState([], s.errorMessage + SerializationError(description)))
    case Value(json) =>
      if !json.Object? then Trapped
      else
        match ArrayField(json.fields, "results")
        case None => Completed(SearchState([], s.errorMessage + MissingResults()))
        case Some(results) => Completed(WithResults(s.errorMessage, results, validUrl))
  }

  /** A body that decodes to a top-level array (`[]`) is accepted by the
      decoder but traps at the forced unwrap; the corrected handler reports a
      missing results array instead. */
  lemma TopLevelArrayTraps(s: SearchState, validUrl: string -> bool)
    ensures UpdateSearchResultsAsWritten(s, Value(Array([])), validUrl) == Trapped
    ensures UpdateSearchResults(s, Value(Array([])), validUrl) == SearchState([], s.errorMessage + MissingResults())
  {
  }

  // ---------------------------------------------------------------------------
  // The data task's completion handler

  /** The response object, as far as `as? HTTPURLResponse` can tell. */
  datatype Response = HttpResponse(statusCode: int) | OtherResponse

  /** What the completion handler decides to do. */
  datatype Gate = TransportFailure(description: string) | Deliver(payload: Decoded) | Ignore

  function DecideCompletion(error: Option<string>, data: Option<Decoded>, response: Option<Response>): (g: Gate)
    ensures g.TransportFailure? <==> error.Some?
    ensures g.TransportFailure? ==> g.description == error.value
    ensures g.Deliver? <==> error.None? && data.Some? && response == Some(HttpResponse(200))
    ensures g.Deliver? ==> g.payload == data.value
  {
    if error.Some? then TransportFailure(error.value)
    else if data.Some? && response.Some? && response.value.HttpResponse? && response.value.statusCode == 200
    then Deliver(data.value)
    else Ignore
  }

  /** The arguments `completion` is called with. */
  datatype Delivery = Delivery(tracks: seq<Track>, errorMessage: string)

  /** The completion handler: a transport error only appends to
      `errorMessage`; a 200 response with data is parsed and delivered;
      anything else changes nothing and delivers nothing. */
  function CompleteDataTask(s: SearchState, error: Option<string>, data: Option<Decoded>,
                            response: Option<Response>, validUrl: string -> bool): (r: (SearchState, Option<Delivery>))
    ensures r.1.Some? <==> error.None? && data.Some? && response == Some(HttpResponse(200))
    ensures r.1.Some? ==> && r.0 == UpdateSearchResults(s, data.value, validUrl)
                          && r.1.value == Delivery(r.0.tracks, r.0.errorMessage)
    ensures error.Some? ==> r.0 == SearchState(s.tracks, s.errorMessage + DataTaskError(error.value))
    ensures error.None? && r.1.None? ==> r.0 == s
    ensures s.errorMessage <= r.0.errorMessage
  {
    match DecideCompletion(error, data, response)
    case TransportFailure(description) =>
      (s.(errorMessage := s.errorMessage + DataTaskError(description)), None)
    case Deliver(payload) =>
      var updated := UpdateSearchResults(s, payload, validUrl);
      (updated, Some(Delivery(updated.tracks, updated.errorMessage)))
    case Ignore => (s, None)
  }

  /** One data task's arguments to its completion handler. */
  datatype Completion = Completion(error: Option<string>, data: Option<Decoded>, response: Option<Response>)

  /** The state after a series of completions, handled one after another. */
  function CompleteAll(s: SearchState, completions: seq<Completion>, validUrl: string -> bool): SearchState
    decreases |completions|
  {
    if completions == [] then s
    else
      var c := completions[0];
      CompleteAll(CompleteDataTask(s, c.error, c.data, c.response, validUrl).0, completions[1..], validUrl)
  }

  /** `errorMessage` only grows: nothing ever truncates it, so any earlier
      value is a prefix of any later one. */
  lemma {:induction false} ErrorMessageOnlyGrows(s: SearchState, completions: seq<Completion>, validUrl: string -> bool)
    ensures s.errorMessage <= CompleteAll(s, completions, validUrl).errorMessage
    decreases |completions|
  {
    if completions != [] {
      var c := completions[0];
      var next := CompleteDataTask(s, c.error, c.data, c.response, validUrl).0;
      ErrorMessageOnlyGrows(next, completions[1..], validUrl);
      PrefixTransitive(s.errorMessage, next.errorMessage, CompleteAll(next, completions[1..], validUrl).errorMessage);
    }
  }

  lemma PrefixTransitive(a: string, b: string, c: string)
    requires a <= b && b <= c
    ensures a <= c
  {
  }
}
