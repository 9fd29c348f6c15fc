# Music transfer: a Dafny model

This project models the core of a small React web application that copies Spotify playlists into
Amazon Music. The user walks through a five-step wizard:

1. log in;
2. select source playlists;
3. log in to the destination;
4. transfer;
5. done.

The core of the application is `handleTransfer`. For each selected playlist id, in selection order,
it does four things:

- looks the playlist up in the fetched catalog;
- fetches its tracks from Spotify;
- creates an Amazon Music playlist named `Created: <name>`;
- posts the tracks to that playlist.

It appends one progress entry per id, whatever happens. It then chooses step 5 or step 3.

Around that core, the model covers four more parts.

- Wizard state (`App`): the wizard's state and handlers, as a `Session` class. Its fields are the
  React state variables.
- Selection (`Selector`): the selection toggle, the proceed button (disabled state, variant and
  caption), and the per-row highlight, checkbox and track-count label.
- Spotify service (`Spotify`):
  - the authorize URL;
  - the `#access_token=…` fragment parser, which works like JavaScript's `split`;
  - the callback;
  - the mapping of playlist-track responses.
- Amazon Music service (`Amazon`):
  - the request shapes: URL, verb, `Bearer` header and payload;
  - the track formatting, the search query and the first hit;
  - the `handleApiError` messages.

`Text` holds JavaScript-style `split`/`join`, and the decimal rendering of counts and HTTP statuses.
`Wrappers` holds `Option` and `Result`.

The network, the OAuth redirect and the browser are not modelled. Each remote answer becomes a
parameter:

- a `Result` handed to the method;
- a `post`/`get` function taking the request the service builds;
- for the transfer, a `Clients` value: three oracles indexed by the playlist's position in the run.

`encodeURIComponent` and `decodeURIComponent` are parameters too. Every transfer run also yields
its call log (`seq<Call>`). The log shows which service calls happened, in which order, and with
which arguments.

In four places the code does less than its UI and comments suggest, and the model follows the
code:

- Logging out (src/App.jsx:274-278, 300-303) only logs out and returns to step 1. The catalog, the
  selection and the progress list are kept.
- The end-of-run test reads the progress list as it was before the run (see Findings).
- Toggling an id twice restores the selection only when the id was absent. An id that was present
  moves to the end (`Selector.ToggleTwiceMovesToEnd`).
- `PlaylistSelector` reads only the props `playlists`, `selectedPlaylists`, `setSelectedPlaylists`
  and `onNext` (src/components/PlaylistSelector.js:4-9). The `onLogout` and `onPlaylistSelect`
  props App passes (src/App.jsx:213-218) are never called. The toggle that runs on a click is the
  selector's own (src/components/PlaylistSelector.js:11-17), which has the same logic as App's
  `handlePlaylistSelect`. No control calls the source-only logout, so the only control that leads
  from step 2 back to step 1 is the header logout (src/App.jsx:298-310).
  `App.Session.LogoutSource` models the unreachable callback as written.

Two more step changes come from the login effect (src/App.jsx:23-32), not from any control. Its
dependencies are the source token and the destination flag, so it runs again whenever either
changes.

- Losing the source token leads from step 2 to step 1 while the destination is logged out. A
  failed `getUserPlaylists` logs the source account out (src/App.jsx:44-47), and a failed profile
  fetch clears the stored token (src/hooks/useSpotifyAuth.js:50-55). This is the usual path for an
  expired token. In the model it is `FetchPlaylists` with a failure, or `SpotifyTokenChanged(None)`,
  followed by `AutoLoginCheck`.
- A change of the destination login while the source token is present sets step 2 again, from
  any step. Logging in on step 3 thus goes back to the selection. In the model it is
  `AmazonLoginChanged` followed by `AutoLoginCheck`.

Each wizard method requires the step on which its control is rendered (src/App.jsx:206-283).

## Model

| member | source | states |
|---|---|---|
| Text.Split | src/services/spotifyService.js:29-31 | `split` on one character gives at least one piece and no piece holds the separator; the first piece is a prefix of the string, shorter than it exactly when the separator occurs, and is followed by the separator |
| Text.JoinSplit | src/services/spotifyService.js:29-31 | joining the pieces of a split with the separator gives the string back |
| Text.Join | src/services/spotifyService.js:15 | joining no parts gives the empty string, and a join starts with its first part |
| Text.JoinAvoids | src/services/spotifyService.js:10-15 | a character in no part and not in the separator is not in the join |
| Text.SplitJoin | src/services/spotifyService.js:29-31 | JavaScript `split` undoes `join` for separator-free parts, so the parser's segmentation of a `&`-joined string gives back the parts |
| Text.NatToString | src/components/PlaylistSelector.js:56-74 | the template-literal text of a count is a non-empty string of decimal digits |
| Text.NatToStringNoLeadingZero | src/components/PlaylistSelector.js:56-74 | like the template literal, the decimal text of a count has no leading zero: only zero starts with `0` |
| Text.DigitsValueOfNatToString | src/services/amazonService.js:108 | the decimal rendering of a status code reads back as that number |
| Text.NatToStringInjective | src/components/PlaylistSelector.js:74 | different counts render as different digit strings |
| Spotify.AuthUrl | src/services/spotifyService.js:17-22 | the login URL starts with the authorize endpoint `https://accounts.spotify.com/authorize?` |
| Spotify.AuthUrlQuery | src/services/spotifyService.js:9-23 | the query of the login URL splits on `&` into exactly `client_id`, `response_type=token`, `redirect_uri` (encoded), `scope` (the four scopes joined by `%20`) and `show_dialog=true`, in that order |
| Spotify.ScopesSafe | src/services/spotifyService.js:10-15 | the joined scope list holds no `&` or `=`, so it stays one query parameter |
| Spotify.AuthUrlParamsParse | src/services/spotifyService.js:17-34 | parsing the login URL's query with the fragment parser yields exactly the five parameters with their values |
| Spotify.ReduceSegments | src/services/spotifyService.js:30-34 | the `reduce` loop, updating the accumulator one segment at a time, builds exactly the dictionary `Collect` defines |
| Spotify.ParseFragment | src/services/spotifyService.js:27-34 | reducing the `&`-segments of the hash without its first character gives exactly the map `FragmentParams` defines |
| Spotify.CollectKeys | src/services/spotifyService.js:29-33 | a key is in the parsed map if and only if some segment has that key before its first `=` |
| Spotify.CollectLastWins | src/services/spotifyService.js:32 | for a repeated key, the value from the later segment wins |
| Spotify.DropFirst | src/services/spotifyService.js:28 | `substring(1)`: the empty hash stays empty, and any other hash loses exactly its one leading character |
| Spotify.SegmentKey | src/services/spotifyService.js:31-32 | the key is the longest `=`-free prefix of the segment: the whole segment without `=`, else the text before the first `=` |
| Spotify.SegmentValue | src/services/spotifyService.js:31-32 | the value holds no `=`; it is the text `undefined` for a segment without `=`, else the key part of what follows the first `=` |
| Spotify.KeyValueSegment | src/services/spotifyService.js:31-32 | a segment `k=v` with no `=` in `k` or `v` has key `k` and raw value `v`, which the reducer then decodes |
| Spotify.SegmentValueStopsAtSecond | src/services/spotifyService.js:31-32 | a segment `k=a=b` with no `=` in `k` or `a` has key `k` and value `a`: whatever follows a second `=` is dropped |
| Spotify.Collect | src/services/spotifyService.js:29-33 | the reducer's dictionary holds the key of every segment it has read |
| Spotify.FragmentParams | src/services/spotifyService.js:27-34 | a key is in the parameters of a hash if and only if some `&`-segment of the hash after its first character carries it; a hash of a single segment gives exactly that one entry, with the decoded value |
| Spotify.Lookup | src/services/spotifyService.js:37-38 | `params.access_token` and `params.expires_in`: present exactly when the key is, and then the stored value |
| Spotify.HandleSpotifyCallback | src/services/spotifyService.js:26-40 | the returned access token and expiry are the parsed values of `access_token` and `expires_in`, absent when the hash lacks them |
| Spotify.TokenResponseParse | src/services/spotifyService.js:26-39 | for an implicit-grant hash `#access_token=…&token_type=…&expires_in=…` the callback returns the decoded token and expiry |
| Spotify.MapItems | src/services/spotifyService.js:77-81 | the mapping succeeds if and only if every item has a track with at least one artist; it then keeps length and order and takes name, first artist's name and uri; otherwise it is a TypeError |
| Spotify.GetPlaylistTracks | src/services/spotifyService.js:64-86 | a non-ok response throws the request error; an ok one gives the mapped items |
| Spotify.GetUserPlaylists | src/services/spotifyService.js:43-61 | a non-ok response throws; an ok one gives the `items` unchanged |
| Amazon.BearerTokenOfBearer | src/services/amazonService.js:16 | the `Authorization` header carries the access token after `Bearer ` and can be read back |
| Amazon.CreatePlaylistRequest | src/services/amazonService.js:7-19 | a POST to the playlists endpoint with title, description `Amazing Songs`, visibility `PRIVATE`, the bearer header and a JSON content type |
| Amazon.CreatePlaylist | src/services/amazonService.js:4-27 | answers with the new playlist's id on success and rethrows the request's failure |
| Amazon.FormatTracks | src/services/amazonService.js:32-36 | succeeds if and only if every track has a non-empty `artists` array; it then keeps length and order and maps uri, name and first artist; otherwise it is a TypeError |
| Amazon.AddTracksRequest | src/services/amazonService.js:38-47 | a POST to `/v1/playlists/<id>/tracks` with the formatted tracks and the bearer header |
| Amazon.AddTracksToPlaylist | src/services/amazonService.js:29-54 | a formatting failure throws before any request; otherwise the answer is the answer to the add request |
| Amazon.FormatRejectsTransferTracks | src/services/amazonService.js:32-36 | as written, formatting the tracks the transfer passes (`{name, artist, uri}`) fails exactly when the list is non-empty |
| Amazon.FormatTransferTracks | src/services/amazonService.js:32-36 | the corrected formatting keeps length and order and carries uri, title and artist of every track |
| Amazon.UserProfileRequest | src/services/amazonService.js:56-72 | a GET of `/v1/me` with the bearer header and no payload |
| Amazon.SearchQuery | src/services/amazonService.js:80 | the query exists if and only if the track has an artist, and is then the name, a space and the first artist's name; otherwise it is a TypeError |
| Amazon.SearchRequest | src/services/amazonService.js:76-87 | a GET of the search endpoint with the query, type `track` and the bearer header |
| Amazon.FirstHit | src/services/amazonService.js:89 | there is no hit exactly when the result list is empty, otherwise the hit is the first item |
| Amazon.SearchTrack | src/services/amazonService.js:74-94 | a track without an artist throws before any request; otherwise it succeeds exactly when the search does, with the first hit, and a failed search rethrows the request's own error |
| Amazon.ApiErrorMessage | src/services/amazonService.js:97-116 | the fixed texts for 401, 403 and 429, `An error occurred: <status>` for other statuses, the no-response text when the request was sent without an answer, and the setup text otherwise |
| Amazon.ApiErrorMessageIdentifiesStatus | src/services/amazonService.js:100-109 | two responses with the same message have the same status |
| Amazon.ResponseTakesPrecedence | src/services/amazonService.js:98-115 | when a response exists, the message is never the no-response text or the setup text |
| Selector.Without | src/components/PlaylistSelector.js:14 | the filter removes every copy of the id, keeps every other id, and leaves a list without the id unchanged |
| Selector.WithoutAt | src/components/PlaylistSelector.js:14 | in a duplicate-free list, filtering an id out removes exactly its one position |
| Selector.Toggle | src/components/PlaylistSelector.js:11-17 | after toggling, the id is selected if and only if it was not; every other id keeps its membership; an absent id is appended at the end |
| Selector.ToggleRemovesAt | src/components/PlaylistSelector.js:11-17 | toggling a selected id, in a duplicate-free selection, removes exactly its position |
| Selector.ToggleKeepsNoDuplicates | src/components/PlaylistSelector.js:11-17 | toggling never introduces a duplicate |
| Selector.ToggleTwiceRestores | src/components/PlaylistSelector.js:11-17 | toggling an absent id twice gives back the selection |
| Selector.ToggleTwiceMovesToEnd | src/components/PlaylistSelector.js:11-17 | toggling a present id twice, in a duplicate-free selection, moves it to the end |
| Selector.Proceed | src/components/PlaylistSelector.js:68-75 | the button is disabled if and only if nothing is selected, and primary if and only if something is; its text is `Transfer `, the decimal selection size, then ` Playlist` with an `s` exactly when the size is not 1 |
| Selector.ProceedLabelIdentifiesCount | src/components/PlaylistSelector.js:74 | equal button texts mean equal selection sizes |
| Selector.PlaylistRow | src/components/PlaylistSelector.js:33-56 | a row is highlighted and checked if and only if its playlist is selected; its track-count label is `(`, the decimal track total, ` track`, an `s` exactly when the total is not 1, and `)` |
| Selector.ToggleFlipsOnlyThatRow | src/components/PlaylistSelector.js:36-43 | clicking a row flips its checkbox and leaves every row of another playlist unchanged |
| Transfer.StatusText | src/App.jsx:88-159 | the status text is `Transferred Successfully` exactly for a transfer, and every other status text starts with `Failed: ` |
| Transfer.StatusTextInjective | src/App.jsx:88-159 | the five status texts are pairwise different |
| Transfer.DestinationName | src/App.jsx:120 | the destination name is `Created: ` followed by the source name, and both parts can be read back |
| Transfer.Find | src/App.jsx:84 | a found playlist is in the catalog with the id; none is found exactly when no playlist has it |
| Transfer.FindFirst | src/App.jsx:84 | the lookup answers with the first playlist with that id |
| Transfer.Process | src/App.jsx:84-161 | the entry carries the id; `Failed: Playlist not found` and the name `Unknown` exactly when the lookup fails, with no client call; otherwise the playlist's name. A failed fetch gives `Failed: Error fetching tracks`, a failed create after a good fetch gives `Failed: Error creating Amazon playlist`, and a failed add after both gives `Failed: Error adding tracks`. `Transferred Successfully` is given exactly when all three stages succeed. The calls are the fetch of the id, the create of `Created: <name>` and the add of the fetched tracks to the created id, in that order, ending with the stage that failed |
| Transfer.Entries | src/App.jsx:83-162 | after the first n ids the progress list has n entries, entry i carrying the i-th id |
| Transfer.Calls | src/App.jsx:83-162 | after the first n ids there are at most three calls per id, and every fetch is of a selected id found in the catalog |
| Transfer.Report | src/App.jsx:83-162 | the progress list of a run has one entry per selected id, entry i carrying the i-th id |
| Transfer.Log | src/App.jsx:83-162 | a run makes at most three calls per selected id, and fetches only selected ids found in the catalog |
| Transfer.EntriesAt | src/App.jsx:83-162 | after n pipelines the progress list has n entries, entry i being the outcome for the i-th id |
| Transfer.ReportComplete | src/App.jsx:83-162 | a run leaves exactly one entry per selected id, in selection order |
| Transfer.Isolation | src/App.jsx:99-161 | each stage failure is caught for its own playlist; the entry at a position depends only on the clients' answers at that position |
| Transfer.StageOrder | src/App.jsx:99-161 | across the whole run, each create call comes directly after the fetch of a catalog playlist and is named after that playlist, and each add call comes directly after a create call |
| Transfer.CreatedNames | src/App.jsx:118-121 | every playlist the run creates is named `Created: ` followed by the name of a catalog playlist |
| Transfer.SucceededFor | src/App.jsx:168-169 | an entry counts as a success for an id exactly when it carries that id and the status `Transferred` |
| Transfer.HasSuccess | src/App.jsx:166-170 | the `some` test holds exactly when some entry of the consulted list is a transfer of the id |
| Transfer.AllSuccessful | src/App.jsx:165-170 | the `every` test holds exactly when each selected id has a success entry, and always for an empty selection |
| Transfer.NextStep | src/App.jsx:165-172 | the step after a run is 5 or 3, and 5 exactly when every selected id has a `Transferred Successfully` entry in the consulted list |
| Transfer.IntendedStep | src/App.jsx:165-172 | consulting this run's own entries, for a duplicate-free selection, gives 5 exactly when every playlist was transferred |
| Transfer.StaleDecisionMissesSuccess | src/App.jsx:164-172 | a first run in which the playlist is transferred still ends on step 3, because the consulted list is the empty one from before the run |
| Transfer.StaleDecisionReportsOldSuccess | src/App.jsx:164-172 | a rerun in which the playlist fails still ends on step 5, because of the old success entry |
| Transfer.FailingAddNeverTransfers | src/App.jsx:135-172 | with an add stage that always throws, no entry is a success, and a non-empty run ends on step 3 whichever list the decision reads: the run's own entries, the empty list before a first run, or, as written, the entries of the previous run under the same clients |
| Transfer.MixedRun | src/App.jsx:83-161 | three ids, one transferred, one failing to fetch and one missing, give three entries in order with their own outcomes |
| App.Session.constructor | src/App.jsx:15-20 | the initial step is 1, with empty catalog, selection and progress, and nobody logged in |
| App.Session.SpotifyLoggedIn | src/App.jsx:25 | the source token is truthy: absent and empty tokens are falsy, any non-empty token is truthy |
| App.Session.SpotifyTokenChanged | src/hooks/useSpotifyAuth.js:8-66 | the source login hook's token is replaced (set from the callback or storage, cleared by a failed profile fetch or a logout) |
| App.Session.AmazonLoginChanged | src/contexts/AmazonLoginProvider.js:26-85 | the destination provider's logged-in flag is replaced (set after a profile fetch, cleared by a failed fetch or a logout) |
| App.Session.AutoLoginCheck | src/App.jsx:23-32 | a non-empty source token gives step 2; no login at all gives step 1; only a destination login keeps the step |
| App.Session.FetchPlaylists | src/App.jsx:36-54 | nothing without a token; on success the catalog is stored and the step is 2; on failure the source account is logged out |
| App.Session.HandlePlaylistSelect | src/components/PlaylistSelector.js:11-17 | on step 2, the selection becomes its toggle and stays duplicate-free |
| App.Session.ProceedToAmazon | src/App.jsx:64-67 | on step 2, a non-empty selection moves to step 3; with an empty one the disabled button leaves step 2 |
| App.Session.BackToSelection | src/App.jsx:233-239 | on step 3, the back button returns to step 2 |
| App.Session.TransferMore | src/App.jsx:271-273 | on step 5, the button returns to step 2 and keeps the selection |
| App.Session.LogoutSource | src/App.jsx:215-218 | the callback, as written for step 2, clears the source token and returns to step 1; the selector never calls it |
| App.Session.LogoutAll | src/App.jsx:274-278 | the full logout clears both logins and returns to step 1 |
| App.Session.RunSelected | src/App.jsx:83-162 | the loop leaves the run's report in the progress list and returns its call log |
| App.Session.HandleTransfer | src/App.jsx:69-179 | as written, from step 3: without both logins nothing changes and no call is made; otherwise the progress list is reset and becomes the run's report, and the step is decided from the list as it was before the run |
| App.Session.HandleTransferIntended | src/App.jsx:69-179 | corrected, from step 3: the same run, ending on step 5 exactly when every selected playlist was transferred, and on step 3 otherwise |

## Left out

- Network I/O with axios and `fetch`, and JSON decoding: each remote answer is a parameter (a `Result`, a request-to-answer function, or the `Clients` oracles).
- OAuth redirects, the Amazon Login SDK, `window.location` and `sessionStorage` (src/hooks/useSpotifyAuth.js, src/hooks/useAmazonAuth.js, src/contexts/AmazonLoginProvider.js): reduced to a source token and a destination logged-in flag that the login-change methods set.
- `encodeURIComponent` and `decodeURIComponent` are parameters. The thrown `URIError` for a malformed percent-escape is not modelled, because `decode` is total.
- The parsed fragment is a Dafny map. A JavaScript object's special keys, such as `__proto__`, are not modelled.
- Asynchrony and React's batched state updates: each handler runs to completion, and the loop's functional updates are applied in order.
- The `loading` flag (src/App.jsx:20, 39, 48), the `alert` calls and the `console.error` logging have no effect on the modelled state.
- The outer `catch` of `handleTransfer` (src/App.jsx:173-177) is not modelled. Every stage failure is caught per playlist, so in the model no error reaches it.
- The Continue button's `disabled={!amazonAuth.isLoggedIn}` (src/App.jsx:242) is not modelled separately. The guard of `handleTransfer` checks the same login.
- Rendering: the step-4 progress list, src/components/TransferProgress.js (a percentage in floating point), Button.js, UserProfile.js, playlist images, owner display names and the user-profile objects.
- Repeated transfers create new destination playlists each time. The source does not prevent this, and the model does not either.
- The source playlist is addressed by position in the selection. The destination access token is treated as opaque, and the clients do not see it.
- Amazon.CreatePlaylist: a response without `data.id` would give `undefined`; the model always has an id on success.
- Spotify.AuthUrlQuery: stated only for a client id and an encoded redirect URI that contain no `&`. Configuration values with `&` would split into extra parameters.

## Findings

| source | as written | input that shows it | evidently intended | confidence | as-written member | corrected member |
|---|---|---|---|---|---|---|
| src/App.jsx:165-172 | the all-success test reads `transferProgress` from the handler's closure, the list from before the reset at line 79 | a first run with selection `["p1"]` in which every stage succeeds ends on step 3; a rerun after a success in which the fetch fails ends on step 5 (`Transfer.StaleDecisionReportsOldSuccess`). Neither input can occur while the add stage always throws (next row): no entry is then ever a success, so the stale read has no visible effect until that row is fixed (`Transfer.FailingAddNeverTransfers`) | decide from the entries this run appended | not executed | Transfer.StaleDecisionMissesSuccess | App.Session.HandleTransferIntended |
| src/services/amazonService.js:32-36 | `addTracksToPlaylist` reads `track.artists[0].name`, but the transfer passes tracks shaped `{name, artist, uri}` (src/services/spotifyService.js:77-81); it is also declared `static` and called on an instance (src/App.jsx:137) | any selected playlist: `addTracksToPlaylist` is `undefined` on the instance, so the call throws; called on the class, any non-empty track list still throws at `artists[0]` (`Transfer.FailingAddNeverTransfers` gives the run-level effect) | format each track from its own `artist` field | not executed | Amazon.FormatRejectsTransferTracks | Amazon.FormatTransferTracks |
