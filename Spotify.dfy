/**
 * The source service wrapper (src/services/spotifyService.js): the authorize URL of the
 * implicit grant, the parser of the URL fragment the token comes back in (section 4.2.2 of
 * RFC 6749), and the shaping of the playlist and track responses.
 * `encodeURIComponent` and `decodeURIComponent` are parameters, left uninterpreted.
 */
module Spotify {
  import opened Wrappers
  import opened Text

  /** A playlist of the user's catalog, as the playlists endpoint lists it. */
  datatype Playlist = Playlist(
    id: string,
    name: string,
    ownerDisplayName: string,
    trackTotal: nat,
    imageUrl: Option<string>)

  datatype Artist = Artist(name: string)

  /** `item.track` of a playlist-tracks response; the service may send no track object. */
  datatype TrackObject = TrackObject(name: string, artists: seq<Artist>, uri: string)
  datatype Item = Item(track: Option<TrackObject>)

  /** The track shape the wrapper hands to the rest of the application. */
  datatype Track = Track(name: string, artist: string, uri: string)

  /** A parsed HTTP reply: the `ok` flag and the `items` array of its JSON body. */
  datatype Response<T> = Response(ok: bool, items: T)

  /** Why a wrapper call throws: a non-ok reply, or a property read on `undefined`. */
  datatype Fault = RequestFailed | TypeError

  // ---------------------------------------------------------------- authorize URL

  const AuthEndpoint := "https://accounts.spotify.com/authorize?"

  const ScopeList: seq<string> :=
    ["playlist-read-private", "playlist-read-collaborative", "user-read-private", "user-read-email"]

  const Scopes: string := Join(ScopeList, "%20")

  /** The query parameters of the authorize URL, in the order they are written. */
  function AuthParams(clientId: string, redirectUri: string, encode: string -> string): seq<string>
  {
    ["client_id=" + clientId, "response_type=token", "redirect_uri=" + encode(redirectUri),
     "scope=" + Scopes, "show_dialog=true"]
  }

  /** The template literal of `getAuthUrl`: the endpoint, then the parameters joined by `&`. */
  function AuthUrl(clientId: string, redirectUri: string, encode: string -> string): (url: string)
    ensures |url| > |AuthEndpoint| && url[..|AuthEndpoint|] == AuthEndpoint
  {
    AuthEndpoint + Join(AuthParams(clientId, redirectUri, encode), "&")
  }

  /** The query of the authorize URL is exactly its five parameters, in their fixed order. */
  lemma AuthUrlQuery(clientId: string, redirectUri: string, encode: string -> string)
    requires '&' !in clientId && '&' !in encode(redirectUri)
    ensures Split(AuthUrl(clientId, redirectUri, encode)[|AuthEndpoint|..], '&')
            == AuthParams(clientId, redirectUri, encode)
  {
    var ps := AuthParams(clientId, redirectUri, encode);
    var url := AuthUrl(clientId, redirectUri, encode);
    assert url[|AuthEndpoint|..] == Join(ps, "&");
    ScopesSafe();
    forall i | 0 <= i < |ps| ensures '&' !in ps[i] { }
    SplitJoin(ps, '&');
  }

  /** The joined scopes hold neither separator of the query. */
  lemma ScopesSafe()
    ensures '&' !in Scopes && '=' !in Scopes
  {
    JoinAvoids(ScopeList, "%20", '&');
    JoinAvoids(ScopeList, "%20", '=');
  }

  // ---------------------------------------------------------------- fragment parser

  /** `hash.substring(1)`: drops the leading `#`; the empty hash stays empty. */
  function DropFirst(hash: string): (r: string)
    ensures |hash| == 0 ==> r == ""
    ensures |hash| >= 1 ==> |r| == |hash| - 1 && hash[1..] == r
  {
    if |hash| == 0 then "" else hash[1..]
  }

  /** `parts[0]` of `item.split('=')`: the text before the first `=`, or all of it without one. */
  function SegmentKey(item: string): (r: string)
    ensures '=' !in r && r <= item
    ensures '=' in item <==> |r| < |item|
    ensures |r| < |item| ==> item[|r|] == '='
  {
    Split(item, '=')[0]
  }

  /**
   * `parts[1]` of `item.split('=')`: the text between the first and the second `=`; with no `=`
   * it is `undefined`, which `decodeURIComponent` turns into the text "undefined".
   */
  function SegmentValue(item: string): (r: string)
    ensures '=' !in r
    ensures '=' !in item ==> r == "undefined"
    ensures '=' in item ==> r == SegmentKey(item[|SegmentKey(item)| + 1..])
  {
    if '=' in item then
      var k := Split(item, '=')[0];
      var rest := item[|k| + 1..];
      assert item == k + "=" + rest;
      SplitAfterFirstSeparator(k, rest, '=');
      Split(item, '=')[1]
    else
      "undefined"
  }

  /** A segment `k=a=b`, with no `=` in `k` or `a`, has key `k` and value `a`: the rest is dropped. */
  lemma SegmentValueStopsAtSecond(k: string, a: string, b: string)
    requires '=' !in k && '=' !in a
    ensures SegmentKey(k + "=" + a + "=" + b) == k
    ensures SegmentValue(k + "=" + a + "=" + b) == a
  {
    var item := k + "=" + a + "=" + b;
    assert item == k + ['='] + (a + "=" + b);
    SplitAfterFirstSeparator(k, a + "=" + b, '=');
    SplitAfterFirstSeparator(a, b, '=');
    assert item[|k| + 1..] == a + ['='] + b;
  }

  /** The dictionary the `reduce` builds from the first `n` segments: every segment's key is in it. */
  function Collect(segments: seq<string>, decode: string -> string): (r: map<string, string>)
    ensures forall j :: 0 <= j < |segments| ==> SegmentKey(segments[j]) in r
    decreases |segments|
  {
    if |segments| == 0 then map[]
    else
      var init := segments[..|segments| - 1];
      var last := segments[|segments| - 1];
      assert forall j :: 0 <= j < |init| ==> init[j] == segments[j];
      Collect(init, decode)[SegmentKey(last) := decode(SegmentValue(last))]
  }

  /** The keys of the dictionary of a text's `&`-segments, and the dictionary of a single segment. */
  lemma SegmentsCollect(f: string, decode: string -> string)
    ensures forall k :: k in Collect(Split(f, '&'), decode) <==>
              exists j :: 0 <= j < |Split(f, '&')| && SegmentKey(Split(f, '&')[j]) == k
    ensures '&' !in f ==> Collect(Split(f, '&'), decode) == map[SegmentKey(f) := decode(SegmentValue(f))]
  {
    var segments := Split(f, '&');
    forall k ensures k in Collect(segments, decode) <==>
                     exists j :: 0 <= j < |segments| && SegmentKey(segments[j]) == k {
      CollectKeys(segments, decode, k);
    }
    if '&' !in f {
      SplitWithoutSeparator(f, '&');
      assert segments[..0] == [];
    }
  }

  /**
   * The parameters of a URL fragment: a key is present iff some `&`-segment carries it, and a
   * fragment of one segment gives the one entry.
   */
  function FragmentParams(hash: string, decode: string -> string): (r: map<string, string>)
    ensures forall k :: k in r <==>
              exists j :: 0 <= j < |Split(DropFirst(hash), '&')| && SegmentKey(Split(DropFirst(hash), '&')[j]) == k
    ensures '&' !in DropFirst(hash) ==>
              r == map[SegmentKey(DropFirst(hash)) := decode(SegmentValue(DropFirst(hash)))]
  {
    SegmentsCollect(DropFirst(hash), decode);
    Collect(Split(DropFirst(hash), '&'), decode)
  }

  /** The `reduce` over the segments: the accumulator is updated one segment at a time. */
  method ReduceSegments(segments: seq<string>, decode: string -> string) returns (params: map<string, string>)
    ensures params == Collect(segments, decode)
  {
    params := map[];
    var i := 0;
    while i < |segments|
      invariant 0 <= i <= |segments|
      invariant params == Collect(segments[..i], decode)
    {
      assert segments[..i + 1][..i] == segments[..i];
      params := params[SegmentKey(segments[i]) := decode(SegmentValue(segments[i]))];
      i := i + 1;
    }
    assert segments[..i] == segments;
  }

  /** Parses a URL fragment by reducing its `&`-segments after the leading character. */
  method ParseFragment(hash: string, decode: string -> string) returns (params: map<string, string>)
    ensures params == FragmentParams(hash, decode)
  {
    params := ReduceSegments(Split(DropFirst(hash), '&'), decode);
  }

  /** A key is in the dictionary iff some segment carries it. */
  lemma {:induction false} CollectKeys(segments: seq<string>, decode: string -> string, k: string)
    ensures k in Collect(segments, decode) <==>
            exists j :: 0 <= j < |segments| && SegmentKey(segments[j]) == k
    decreases |segments|
  {
    if |segments| > 0 {
      var init := segments[..|segments| - 1];
      CollectKeys(init, decode, k);
      if k in Collect(init, decode) {
        var j :| 0 <= j < |init| && SegmentKey(init[j]) == k;
        assert segments[j] == init[j];
      }
      if exists j :: 0 <= j < |segments| && SegmentKey(segments[j]) == k {
        var j :| 0 <= j < |segments| && SegmentKey(segments[j]) == k;
        if j < |init| { assert init[j] == segments[j]; }
      }
    }
  }

  /** For a repeated key the later segment wins: the value is that of the last segment with the key. */
  lemma {:induction false} CollectLastWins(segments: seq<string>, decode: string -> string, j: nat)
    requires j < |segments|
    requires forall l :: j < l < |segments| ==> SegmentKey(segments[l]) != SegmentKey(segments[j])
    ensures SegmentKey(segments[j]) in Collect(segments, decode)
    ensures Collect(segments, decode)[SegmentKey(segments[j])] == decode(SegmentValue(segments[j]))
    decreases |segments|
  {
    var init := segments[..|segments| - 1];
    if j < |segments| - 1 {
      forall l | j < l < |init| ensures SegmentKey(init[l]) != SegmentKey(init[j]) {
        assert init[l] == segments[l];
      }
      CollectLastWins(init, decode, j);
      assert SegmentKey(segments[|segments| - 1]) != SegmentKey(segments[j]);
    }
  }

  /** A segment `k=v` with no `=` in `k` or `v` has key `k` and value `v`. */
  lemma KeyValueSegment(k: string, v: string)
    requires '=' !in k && '=' !in v
    ensures SegmentKey(k + "=" + v) == k && SegmentValue(k + "=" + v) == v
  {
    SplitJoin([k, v], '=');
    assert Join([k, v], "=") == k + "=" + v;
  }

  /** `k=v` joined by `&`, for keys and values free of both separators, parses to the updates in order. */
  lemma {:induction false} CollectPairs(keys: seq<string>, values: seq<string>, decode: string -> string)
    requires |keys| == |values|
    requires forall i :: 0 <= i < |keys| ==> '=' !in keys[i] && '&' !in keys[i]
    requires forall i :: 0 <= i < |values| ==> '=' !in values[i] && '&' !in values[i]
    ensures Collect(Pairs(keys, values), decode) == Updates(keys, values, decode)
    ensures forall i :: 0 <= i < |keys| ==> '&' !in Pairs(keys, values)[i]
    decreases |keys|
  {
    if |keys| > 0 {
      var n := |keys| - 1;
      CollectPairs(keys[..n], values[..n], decode);
      KeyValueSegment(keys[n], values[n]);
      assert Pairs(keys, values)[..n] == Pairs(keys[..n], values[..n]);
    }
  }

  /** The segments `keys[i]=values[i]`. */
  function Pairs(keys: seq<string>, values: seq<string>): (r: seq<string>)
    requires |keys| == |values|
    ensures |r| == |keys|
    ensures forall i :: 0 <= i < |keys| ==> r[i] == keys[i] + "=" + values[i]
  {
    seq(|keys|, i requires 0 <= i < |keys| => keys[i] + "=" + values[i])
  }

  /** The dictionary that assigns `decode(values[i])` to `keys[i]` in order, later keys winning. */
  function Updates(keys: seq<string>, values: seq<string>, decode: string -> string): map<string, string>
    requires |keys| == |values|
    decreases |keys|
  {
    if |keys| == 0 then map[]
    else
      var n := |keys| - 1;
      Updates(keys[..n], values[..n], decode)[keys[n] := decode(values[n])]
  }

  lemma AuthParamsArePairs(clientId: string, redirectUri: string, encode: string -> string)
    ensures AuthParams(clientId, redirectUri, encode)
            == Pairs(["client_id", "response_type", "redirect_uri", "scope", "show_dialog"],
                     [clientId, "token", encode(redirectUri), Scopes, "true"])
  {
    assert "client_id" + "=" == "client_id=";
    assert "response_type" + "=" + "token" == "response_type=token";
    assert "redirect_uri" + "=" == "redirect_uri=";
    assert "scope" + "=" == "scope=";
    assert "show_dialog" + "=" + "true" == "show_dialog=true";
  }

  /** The query of the authorize URL, read by the same parser, gives back each parameter. */
  lemma AuthUrlParamsParse(clientId: string, redirectUri: string, encode: string -> string)
    requires '&' !in clientId && '&' !in encode(redirectUri)
    requires '=' !in clientId && '=' !in encode(redirectUri)
    ensures var url := AuthUrl(clientId, redirectUri, encode);
            FragmentParams(url[|AuthEndpoint| - 1..], s => s)
            == map["client_id" := clientId, "response_type" := "token",
                   "redirect_uri" := encode(redirectUri), "scope" := Scopes, "show_dialog" := "true"]
  {
    var url := AuthUrl(clientId, redirectUri, encode);
    var id := (s: string) => s;
    var keys := ["client_id", "response_type", "redirect_uri", "scope", "show_dialog"];
    var values := [clientId, "token", encode(redirectUri), Scopes, "true"];
    var ps := AuthParams(clientId, redirectUri, encode);
    assert FragmentParams(url[|AuthEndpoint| - 1..], id) == Collect(ps, id) by {
      assert DropFirst(url[|AuthEndpoint| - 1..]) == url[|AuthEndpoint|..];
      AuthUrlQuery(clientId, redirectUri, encode);
    }
    AuthParamsCollect(clientId, redirectUri, encode, id);
    UpdatesOfFive(keys, values, id);
  }

  lemma AuthParamsCollect(clientId: string, redirectUri: string, encode: string -> string,
                          decode: string -> string)
    requires '&' !in clientId && '&' !in encode(redirectUri)
    requires '=' !in clientId && '=' !in encode(redirectUri)
    ensures Collect(AuthParams(clientId, redirectUri, encode), decode)
            == Updates(["client_id", "response_type", "redirect_uri", "scope", "show_dialog"],
                       [clientId, "token", encode(redirectUri), Scopes, "true"], decode)
  {
    var keys := ["client_id", "response_type", "redirect_uri", "scope", "show_dialog"];
    var values := [clientId, "token", encode(redirectUri), Scopes, "true"];
    ScopesSafe();
    CollectPairs(keys, values, decode);
    AuthParamsArePairs(clientId, redirectUri, encode);
  }

  lemma UpdatesOfFive(keys: seq<string>, values: seq<string>, decode: string -> string)
    requires |keys| == |values| == 5
    ensures Updates(keys, values, decode)
            == map[][keys[0] := decode(values[0])][keys[1] := decode(values[1])][keys[2] := decode(values[2])]
                    [keys[3] := decode(values[3])][keys[4] := decode(values[4])]
  {
    forall n | 1 <= n <= 5
      ensures Updates(keys[..n], values[..n], decode)
              == Updates(keys[..n - 1], values[..n - 1], decode)[keys[n - 1] := decode(values[n - 1])]
    {
      assert keys[..n][..n - 1] == keys[..n - 1];
      assert values[..n][..n - 1] == values[..n - 1];
    }
    assert keys[..5] == keys && values[..5] == values;
  }

  // ---------------------------------------------------------------- callback

  /** `hash.access_token` and the like: `undefined` when the key is absent. */
  function Lookup(params: map<string, string>, key: string): (r: Option<string>)
    ensures r.Some? <==> key in params
    ensures r.Some? ==> r.value == params[key]
  {
    if key in params then Some(params[key]) else None
  }

  datatype Callback = Callback(accessToken: Option<string>, expiresIn: Option<string>)

  method HandleSpotifyCallback(hash: string, decode: string -> string) returns (cb: Callback)
    ensures cb.accessToken == Lookup(FragmentParams(hash, decode), "access_token")
    ensures cb.expiresIn == Lookup(FragmentParams(hash, decode), "expires_in")
  {
    var params := ParseFragment(hash, decode);
    cb := Callback(Lookup(params, "access_token"), Lookup(params, "expires_in"));
  }

  /** A `#` and `&`-joined segments without `&` parse to the dictionary of those segments. */
  lemma FragmentOfJoin(segs: seq<string>, decode: string -> string)
    requires |segs| >= 1
    requires forall i :: 0 <= i < |segs| ==> '&' !in segs[i]
    ensures FragmentParams("#" + Join(segs, "&"), decode) == Collect(segs, decode)
  {
    assert DropFirst("#" + Join(segs, "&")) == Join(segs, "&");
    SplitJoin(segs, '&');
  }

  /**
   * The fragment of a token response (`#access_token=…&token_type=…&expires_in=…`, the shape of
   * section 4.2.2 of RFC 6749) yields the decoded token and lifetime.
   */
  lemma TokenResponseParse(token: string, tokenType: string, expires: string, decode: string -> string)
    requires '&' !in token && '=' !in token
    requires '&' !in tokenType && '=' !in tokenType
    requires '&' !in expires && '=' !in expires
    ensures var params := FragmentParams(
              "#" + Join(["access_token=" + token, "token_type=" + tokenType, "expires_in=" + expires], "&"),
              decode);
            Lookup(params, "access_token") == Some(decode(token)) &&
            Lookup(params, "expires_in") == Some(decode(expires))
  {
    var segs := ["access_token=" + token, "token_type=" + tokenType, "expires_in=" + expires];
    TokenSegmentsCollect(token, tokenType, expires, decode);
    FragmentOfJoin(segs, decode);
    assert ("access_token" != "token_type") && ("expires_in" != "token_type");
  }

  /** The three segments of a token response, parsed in order. */
  lemma TokenSegmentsCollect(token: string, tokenType: string, expires: string, decode: string -> string)
    requires '&' !in token && '=' !in token
    requires '&' !in tokenType && '=' !in tokenType
    requires '&' !in expires && '=' !in expires
    ensures var segs := ["access_token=" + token, "token_type=" + tokenType, "expires_in=" + expires];
            && (forall i :: 0 <= i < |segs| ==> '&' !in segs[i])
            && Collect(segs, decode)
               == map[]["access_token" := decode(token)]["token_type" := decode(tokenType)]["expires_in" := decode(expires)]
  {
    var keys := ["access_token", "token_type", "expires_in"];
    var values := [token, tokenType, expires];
    TokenPairs(token, tokenType, expires);
    CollectPairs(keys, values, decode);
    UpdatesOfThree(keys, values, decode);
  }

  lemma TokenPairs(token: string, tokenType: string, expires: string)
    ensures Pairs(["access_token", "token_type", "expires_in"], [token, tokenType, expires])
            == ["access_token=" + token, "token_type=" + tokenType, "expires_in=" + expires]
  {
    assert "access_token" + "=" == "access_token=";
    assert "token_type" + "=" == "token_type=";
    assert "expires_in" + "=" == "expires_in=";
  }

  lemma UpdatesOfThree(keys: seq<string>, values: seq<string>, decode: string -> string)
    requires |keys| == |values| == 3
    ensures Updates(keys, values, decode)
            == map[][keys[0] := decode(values[0])][keys[1] := decode(values[1])][keys[2] := decode(values[2])]
  {
    forall n | 1 <= n <= 3
      ensures Updates(keys[..n], values[..n], decode)
              == Updates(keys[..n - 1], values[..n - 1], decode)[keys[n - 1] := decode(values[n - 1])]
    {
      assert keys[..n][..n - 1] == keys[..n - 1];
      assert values[..n][..n - 1] == values[..n - 1];
    }
    assert keys[..3] == keys && values[..3] == values;
  }

  // ---------------------------------------------------------------- responses

  predicate Mappable(item: Item)
  {
    item.track.Some? && |item.track.value.artists| > 0
  }

  /** `{ name: item.track.name, artist: item.track.artists[0].name, uri: item.track.uri }`. */
  function ToTrack(item: Item): Track
    requires Mappable(item)
  {
    Track(item.track.value.name, item.track.value.artists[0].name, item.track.value.uri)
  }

  /** `data.items.map(...)`: throws at an item with no track or no artist. */
  function MapItems(items: seq<Item>): (r: Result<seq<Track>, Fault>)
    ensures r.Success? <==> forall i :: 0 <= i < |items| ==> Mappable(items[i])
    ensures r.Success? ==> |r.value| == |items|
    ensures r.Success? ==> forall i :: 0 <= i < |items| ==> r.value[i] == ToTrack(items[i])
    ensures r.Failure? ==> r.error == TypeError
    decreases |items|
  {
    if |items| == 0 then Success([])
    else if !Mappable(items[0]) then Failure(TypeError)
    else
      match MapItems(items[1..])
      case Failure(e) => Failure(e)
      case Success(rest) => Success([ToTrack(items[0])] + rest)
  }

  /** `getPlaylistTracks` once the reply is in: a non-ok reply throws, never yields tracks. */
  function GetPlaylistTracks(response: Response<seq<Item>>): (r: Result<seq<Track>, Fault>)
    ensures !response.ok ==> r == Failure(RequestFailed)
    ensures response.ok ==> r == MapItems(response.items)
  {
    if !response.ok then Failure(RequestFailed) else MapItems(response.items)
  }

  /** `getUserPlaylists` once the reply is in: a non-ok reply throws, else the items. */
  function GetUserPlaylists(response: Response<seq<Playlist>>): (r: Result<seq<Playlist>, Fault>)
    ensures r.Success? <==> response.ok
    ensures r.Success? ==> r.value == response.items
    ensures r.Failure? ==> r.error == RequestFailed
  {
    if !response.ok then Failure(RequestFailed) else Success(response.items)
  }
}
