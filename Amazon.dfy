/**
 * The destination service wrapper (src/services/amazonService.js): the requests it builds,
 * the track formatting, the search query, and the classification of API errors into messages.
 * Sending a request is a parameter (`post`, `get`) that answers with the reply or a fault.
 */
module Amazon {
  import opened Wrappers
  import opened Text
  import Spotify

  const PlaylistsEndpoint := "https://api.music.amazon.dev/v1/playlists"
  const ProfileEndpoint := "https://api.music.amazon.dev/v1/me"
  const SearchEndpoint := "https://api.music.amazon.dev/v1/search"

  const Description := "Amazing Songs"
  const Visibility := "PRIVATE"

  /** A track as `addTracksToPlaylist` and `searchTrack` read it: `artists` may be absent. */
  datatype InputTrack = InputTrack(name: string, uri: string, artists: Option<seq<Spotify.Artist>>)

  /** The shape sent to the playlist-tracks endpoint. */
  datatype AmazonTrack = AmazonTrack(uri: string, title: string, artist: string)

  datatype Payload =
    | PlaylistDraft(title: string, description: string, visibility: string)
    | TrackList(tracks: seq<AmazonTrack>)
    | SearchParams(q: string, kind: string)
    | NoPayload

  datatype Verb = Get | Post

  datatype Request = Request(verb: Verb, url: string, headers: map<string, string>, payload: Payload)

  /** What makes a wrapper call throw: a property read on `undefined`, or the HTTP call failing. */
  datatype Fault = TypeError | Http(error: ApiError)

  /** The parts of an axios error that `handleApiError` inspects. */
  datatype ApiError = ApiError(responseStatus: Option<nat>, requestSent: bool)

  /** The reply of the create-playlist endpoint: its `data.id`. */
  datatype Created = Created(id: string)

  // ---------------------------------------------------------------- headers

  const BearerPrefix := "Bearer "

  function Bearer(accessToken: string): string
  {
    BearerPrefix + accessToken
  }

  /** The token an Authorization header carries, if it has the Bearer form. */
  function BearerToken(header: string): Option<string>
  {
    if |header| >= |BearerPrefix| && header[..|BearerPrefix|] == BearerPrefix
    then Some(header[|BearerPrefix|..]) else None
  }

  lemma BearerTokenOfBearer(accessToken: string)
    ensures BearerToken(Bearer(accessToken)) == Some(accessToken)
  {
    assert Bearer(accessToken)[..|BearerPrefix|] == BearerPrefix;
  }

  function JsonHeaders(accessToken: string): map<string, string>
  {
    map["Authorization" := Bearer(accessToken), "Content-Type" := "application/json"]
  }

  /** A request carries the caller's access token in its Authorization header. */
  predicate Authorized(r: Request, accessToken: string)
  {
    "Authorization" in r.headers && BearerToken(r.headers["Authorization"]) == Some(accessToken)
  }

  // ---------------------------------------------------------------- create playlist

  function CreatePlaylistRequest(accessToken: string, playlistName: string): (r: Request)
    ensures r.verb == Post && r.url == PlaylistsEndpoint
    ensures r.payload == PlaylistDraft(playlistName, Description, Visibility)
    ensures Authorized(r, accessToken)
    ensures "Content-Type" in r.headers && r.headers["Content-Type"] == "application/json"
  {
    BearerTokenOfBearer(accessToken);
    Request(Post, PlaylistsEndpoint, JsonHeaders(accessToken), PlaylistDraft(playlistName, Description, Visibility))
  }

  /** `createPlaylist`: posts the draft and answers with the id of the new playlist, or rethrows. */
  function CreatePlaylist(accessToken: string, playlistName: string, post: Request -> Result<Created, Fault>)
    : (r: Result<string, Fault>)
    ensures var reply := post(CreatePlaylistRequest(accessToken, playlistName));
            && (r.Success? <==> reply.Success?)
            && (r.Success? ==> r.value == reply.value.id)
            && (r.Failure? ==> r.error == reply.error)
  {
    match post(CreatePlaylistRequest(accessToken, playlistName))
    case Success(created) => Success(created.id)
    case Failure(e) => Failure(e)
  }

  // ---------------------------------------------------------------- add tracks

  predicate Formattable(t: InputTrack)
  {
    t.artists.Some? && |t.artists.value| > 0
  }

  /** `tracks.map(...)`: throws at a track with no `artists` array or an empty one. */
  function FormatTracks(tracks: seq<InputTrack>): (r: Result<seq<AmazonTrack>, Fault>)
    ensures r.Success? <==> forall i :: 0 <= i < |tracks| ==> Formattable(tracks[i])
    ensures r.Success? ==> |r.value| == |tracks|
    ensures r.Success? ==> forall i :: 0 <= i < |tracks| ==>
              r.value[i] == AmazonTrack(tracks[i].uri, tracks[i].name, tracks[i].artists.value[0].name)
    ensures r.Failure? ==> r.error == TypeError
    decreases |tracks|
  {
    if |tracks| == 0 then Success([])
    else if !Formattable(tracks[0]) then Failure(TypeError)
    else
      var t := tracks[0];
      match FormatTracks(tracks[1..])
      case Failure(e) => Failure(e)
      case Success(rest) => Success([AmazonTrack(t.uri, t.name, t.artists.value[0].name)] + rest)
  }

  function AddTracksRequest(accessToken: string, playlistId: string, tracks: seq<AmazonTrack>): (r: Request)
    ensures r.verb == Post && r.url == PlaylistsEndpoint + "/" + playlistId + "/tracks"
    ensures r.payload == TrackList(tracks)
    ensures Authorized(r, accessToken)
  {
    BearerTokenOfBearer(accessToken);
    Request(Post, PlaylistsEndpoint + "/" + playlistId + "/tracks", JsonHeaders(accessToken), TrackList(tracks))
  }

  /** `addTracksToPlaylist`: formats the tracks (which may throw), then posts them. */
  function AddTracksToPlaylist<D>(accessToken: string, playlistId: string, tracks: seq<InputTrack>,
                                  post: Request -> Result<D, Fault>): (r: Result<D, Fault>)
    ensures FormatTracks(tracks).Failure? ==> r == Failure(TypeError)
    ensures FormatTracks(tracks).Success? ==>
              r == post(AddTracksRequest(accessToken, playlistId, FormatTracks(tracks).value))
  {
    match FormatTracks(tracks)
    case Failure(e) => Failure(e)
    case Success(formatted) => post(AddTracksRequest(accessToken, playlistId, formatted))
  }

  /**
   * The object the transfer passes for a fetched track has `name`, `artist` and `uri`; reading
   * `artists` from it gives `undefined`.
   */
  function AsInputTrack(t: Spotify.Track): InputTrack
  {
    InputTrack(t.name, t.uri, None)
  }

  function AsInputTracks(ts: seq<Spotify.Track>): (r: seq<InputTrack>)
    ensures |r| == |ts| && forall i :: 0 <= i < |ts| ==> r[i] == AsInputTrack(ts[i])
  {
    seq(|ts|, i requires 0 <= i < |ts| => AsInputTrack(ts[i]))
  }

  /** As written, formatting the tracks the transfer hands over fails for every non-empty list. */
  lemma FormatRejectsTransferTracks(ts: seq<Spotify.Track>)
    ensures FormatTracks(AsInputTracks(ts)).Failure? <==> |ts| > 0
  {
    if |ts| > 0 {
      assert !Formattable(AsInputTracks(ts)[0]);
    }
  }

  /** The formatting the transfer needs: `artist` is read from the fetched track itself. */
  function FormatTransferTracks(ts: seq<Spotify.Track>): (r: seq<AmazonTrack>)
    ensures |r| == |ts|
    ensures forall i :: 0 <= i < |ts| ==>
              r[i].uri == ts[i].uri && r[i].title == ts[i].name && r[i].artist == ts[i].artist
    decreases |ts|
  {
    if |ts| == 0 then [] else [AmazonTrack(ts[0].uri, ts[0].name, ts[0].artist)] + FormatTransferTracks(ts[1..])
  }

  // ---------------------------------------------------------------- profile and search

  function UserProfileRequest(accessToken: string): (r: Request)
    ensures r.verb == Get && r.url == ProfileEndpoint && r.payload == NoPayload
    ensures Authorized(r, accessToken)
  {
    BearerTokenOfBearer(accessToken);
    Request(Get, ProfileEndpoint, map["Authorization" := Bearer(accessToken)], NoPayload)
  }

  /** The search query `${track.name} ${track.artists[0].name}`; throws without an artist. */
  function SearchQuery(track: InputTrack): (r: Result<string, Fault>)
    ensures r.Success? <==> Formattable(track)
    ensures r.Success? ==> r.value == track.name + " " + track.artists.value[0].name
    ensures r.Failure? ==> r.error == TypeError
  {
    if Formattable(track) then Success(track.name + " " + track.artists.value[0].name) else Failure(TypeError)
  }

  function SearchRequest(accessToken: string, query: string): (r: Request)
    ensures r.verb == Get && r.url == SearchEndpoint && r.payload == SearchParams(query, "track")
    ensures Authorized(r, accessToken)
  {
    BearerTokenOfBearer(accessToken);
    Request(Get, SearchEndpoint, map["Authorization" := Bearer(accessToken)], SearchParams(query, "track"))
  }

  /** `items[0]`: the first hit, `undefined` when the search found nothing. */
  function FirstHit<T>(items: seq<T>): (r: Option<T>)
    ensures r.None? <==> |items| == 0
    ensures r.Some? ==> r.value == items[0]
  {
    if |items| == 0 then None else Some(items[0])
  }

  /** `searchTrack`: builds the query (which may throw), sends it, answers with the first hit. */
  function SearchTrack<T>(accessToken: string, track: InputTrack, get: Request -> Result<seq<T>, Fault>)
    : (r: Result<Option<T>, Fault>)
    ensures !Formattable(track) ==> r == Failure(TypeError)
    ensures Formattable(track) ==>
              var reply := get(SearchRequest(accessToken, SearchQuery(track).value));
              && (r.Success? <==> reply.Success?)
              && (r.Success? ==> r.value == FirstHit(reply.value))
              && (reply.Failure? ==> r == Failure(reply.error))
  {
    match SearchQuery(track)
    case Failure(e) => Failure(e)
    case Success(q) =>
      match get(SearchRequest(accessToken, q))
      case Failure(e) => Failure(e)
      case Success(items) => Success(FirstHit(items))
  }

  // ---------------------------------------------------------------- error messages

  // The texts `handleApiError` gives each case, each the concatenation of its phrases.
  const UnauthorizedMessage := "Authorization failed. " + "Please re-authenticate."
  const ForbiddenMessage := "Access forbidden. " + "Check your permissions."
  const RateLimitedMessage := "Too many requests. " + "Please wait and try again."
  const OtherStatusPrefix := "An error occurred: "
  const NoResponseMessage := "No response from " + "Amazon Music. " + "Check your internet " + "connection."
  const SetupMessage := "Error setting up " + "the request."

  /** `handleApiError`: a reply's status decides first, then whether a request went out at all. */
  function ApiErrorMessage(e: ApiError): (m: string)
    ensures e.responseStatus == Some(401) ==> m == UnauthorizedMessage
    ensures e.responseStatus == Some(403) ==> m == ForbiddenMessage
    ensures e.responseStatus == Some(429) ==> m == RateLimitedMessage
    ensures e.responseStatus.Some? && e.responseStatus.value !in {401, 403, 429} ==>
              m == OtherStatusPrefix + NatToString(e.responseStatus.value)
    ensures e.responseStatus.None? && e.requestSent ==> m == NoResponseMessage
    ensures e.responseStatus.None? && !e.requestSent ==> m == SetupMessage
  {
    match e.responseStatus
    case Some(status) =>
      if status == 401 then UnauthorizedMessage
      else if status == 403 then ForbiddenMessage
      else if status == 429 then RateLimitedMessage
      else OtherStatusPrefix + NatToString(status)
    case None =>
      if e.requestSent then NoResponseMessage else SetupMessage
  }

  /** The message tells the status back: replies with different statuses get different messages. */
  lemma ApiErrorMessageIdentifiesStatus(a: ApiError, b: ApiError)
    requires a.responseStatus.Some? && b.responseStatus.Some?
    requires ApiErrorMessage(a) == ApiErrorMessage(b)
    ensures a.responseStatus == b.responseStatus
  {
    var sa, sb := a.responseStatus.value, b.responseStatus.value;
    var fixed := {401, 403, 429};
    assert UnauthorizedMessage[1] == 'u' && ForbiddenMessage[1] == 'c' && RateLimitedMessage[1] == 'o';
    assert forall n: nat :: (OtherStatusPrefix + NatToString(n))[1] == 'n';
    if sa !in fixed && sb !in fixed {
      assert ApiErrorMessage(a)[|OtherStatusPrefix|..] == NatToString(sa);
      assert ApiErrorMessage(b)[|OtherStatusPrefix|..] == NatToString(sb);
      NatToStringInjective(sa, sb);
    }
  }

  /** A reply, whatever its status, is never reported as a missing reply or a setup error. */
  lemma ResponseTakesPrecedence(e: ApiError)
    requires e.responseStatus.Some?
    ensures ApiErrorMessage(e) != NoResponseMessage && ApiErrorMessage(e) != SetupMessage
  {
    var m := ApiErrorMessage(e);
    if e.responseStatus.value !in {401, 403, 429} {
      assert m[0] == OtherStatusPrefix[0] == 'A';
    } else {
      assert UnauthorizedMessage[0] == 'A' && ForbiddenMessage[0] == 'A' && RateLimitedMessage[0] == 'T';
    }
    assert NoResponseMessage[0] == 'N' && SetupMessage[0] == 'E';
  }
}
