/**
 * The application state of src/App.jsx: the React state variables become fields of a `Session`,
 * each handler and effect a method that updates them. The two login hooks are reduced to the
 * source token (present and non-empty means logged in) and the destination's logged-in flag.
 */
module App {
  import opened Wrappers
  import opened Selector
  import opened Transfer
  import Spotify

  /** The wizard steps. */
  const LoginStep := 1
  const SelectStep := 2
  const DestinationStep := 3
  const TransferringStep := 4
  const CompleteStep := 5

  class Session {
    var spotifyToken: Option<string>
    var amazonLoggedIn: bool
    var playlists: seq<Spotify.Playlist>
    var selected: seq<string>
    var step: int
    var transferProgress: seq<Entry>

    /** The step is one of the five, and the selection never holds an id twice. */
    ghost predicate Valid()
      reads this
    {
      LoginStep <= step <= CompleteStep && NoDuplicates(selected)
    }

    /** `spotifyAuth.accessToken` is truthy: present and not the empty string. */
    predicate SpotifyLoggedIn()
      reads this
      ensures spotifyToken.None? ==> !SpotifyLoggedIn()
      ensures spotifyToken == Some("") ==> !SpotifyLoggedIn()
      ensures SpotifyLoggedIn() <==> spotifyToken.Some? && |spotifyToken.value| >= 1
    {
      spotifyToken.Some? && spotifyToken.value != ""
    }

    /** The initial `useState` values. */
    constructor ()
      ensures Valid()
      ensures step == LoginStep && playlists == [] && selected == [] && transferProgress == []
      ensures spotifyToken == None && !amazonLoggedIn
    {
      spotifyToken := None;
      amazonLoggedIn := false;
      playlists := [];
      selected := [];
      step := LoginStep;
      transferProgress := [];
    }

    /** The source login hook now holds this token (set by its callback or from storage). */
    method SpotifyTokenChanged(token: Option<string>)
      requires Valid()
      modifies this`spotifyToken
      ensures Valid()
      ensures spotifyToken == token
    {
      spotifyToken := token;
    }

    /** The destination login provider now reports this logged-in state. */
    method AmazonLoginChanged(loggedIn: bool)
      requires Valid()
      modifies this`amazonLoggedIn
      ensures Valid()
      ensures amazonLoggedIn == loggedIn
    {
      amazonLoggedIn := loggedIn;
    }

    /** `autoLoginCheck`, run whenever either login changes. */
    method AutoLoginCheck()
      requires Valid()
      modifies this`step
      ensures Valid()
      ensures SpotifyLoggedIn() ==> step == SelectStep
      ensures !SpotifyLoggedIn() && !amazonLoggedIn ==> step == LoginStep
      ensures !SpotifyLoggedIn() && amazonLoggedIn ==> step == old(step)
    {
      if SpotifyLoggedIn() {
        step := SelectStep;
      } else if !amazonLoggedIn {
        step := LoginStep;
      }
    }

    /**
     * `fetchPlaylists`, run when the source token changes, given what `getUserPlaylists` answered:
     * the catalog and step 2 on success, a source logout on failure.
     */
    method FetchPlaylists(reply: Result<seq<Spotify.Playlist>, Spotify.Fault>)
      requires Valid()
      modifies this`playlists, this`step, this`spotifyToken
      ensures Valid()
      ensures !old(SpotifyLoggedIn()) ==>
                playlists == old(playlists) && step == old(step) && spotifyToken == old(spotifyToken)
      ensures old(SpotifyLoggedIn()) && reply.Success? ==>
                playlists == reply.value && step == SelectStep && spotifyToken == old(spotifyToken)
      ensures old(SpotifyLoggedIn()) && reply.Failure? ==>
                playlists == old(playlists) && step == old(step) && spotifyToken == None
    {
      if SpotifyLoggedIn() {
        match reply {
          case Success(userPlaylists) =>
            playlists := userPlaylists;
            step := SelectStep;
          case Failure(_) =>
            spotifyToken := None;
        }
      }
    }

    /**
     * A click on a playlist row: the selector's own `handlePlaylistSelect` toggles the id through
     * `setSelectedPlaylists`. The handler of the same shape in App is passed as `onPlaylistSelect`,
     * a prop the selector never reads.
     */
    method HandlePlaylistSelect(playlistId: string)
      requires Valid() && step == SelectStep
      modifies this`selected
      ensures Valid()
      ensures selected == Toggle(old(selected), playlistId)
    {
      ToggleKeepsNoDuplicates(selected, playlistId);
      selected := Toggle(selected, playlistId);
    }

    /** The proceed button: disabled on an empty selection, else `handleProceedToAmazon` (step 3). */
    method ProceedToAmazon()
      requires Valid() && step == SelectStep
      modifies this`step
      ensures Valid()
      ensures |selected| == 0 ==> step == SelectStep
      ensures |selected| > 0 ==> step == DestinationStep
    {
      if !Proceed(selected).disabled {
        step := DestinationStep;
      }
    }

    /** "Back to Playlist Selection" on step 3. */
    method BackToSelection()
      requires Valid() && step == DestinationStep
      modifies this`step
      ensures Valid() && step == SelectStep
    {
      step := SelectStep;
    }

    /** "Transfer More Playlists" on step 5: the selection is kept. */
    method TransferMore()
      requires Valid() && step == CompleteStep
      modifies this`step
      ensures Valid() && step == SelectStep
    {
      step := SelectStep;
    }

    /**
     * The logout App passes to the selector as `onLogout`: the source account only; catalog and
     * selection are kept. The selector never reads that prop, so no rendered control calls it.
     */
    method LogoutSource()
      requires Valid() && step == SelectStep
      modifies this`spotifyToken, this`step
      ensures Valid() && spotifyToken == None && step == LoginStep
    {
      spotifyToken := None;
      step := LoginStep;
    }

    /** The header and step-5 logout: both accounts; catalog, selection and progress are kept. */
    method LogoutAll()
      requires Valid()
      modifies this`spotifyToken, this`amazonLoggedIn, this`step
      ensures Valid() && spotifyToken == None && !amazonLoggedIn && step == LoginStep
    {
      spotifyToken := None;
      amazonLoggedIn := false;
      step := LoginStep;
    }

    /** The `for…of` loop: one pipeline per selected id, each appending its entry to the progress list. */
    method RunSelected(clients: Clients) returns (log: seq<Call>)
      requires step == TransferringStep && transferProgress == []
      modifies this`transferProgress
      ensures transferProgress == Report(selected, playlists, clients)
      ensures log == Log(selected, playlists, clients)
    {
      log := [];
      var i := 0;
      while i < |selected|
        invariant 0 <= i <= |selected|
        invariant transferProgress == Entries(selected, playlists, clients, i)
        invariant log == Calls(selected, playlists, clients, i)
      {
        var id := selected[i];
        var entry: Entry;
        var calls: seq<Call>;
        match Find(playlists, id) {
          case None =>
            entry, calls := Entry(id, UnknownName, PlaylistNotFound), [];
          case Some(playlist) =>
            match clients.fetchTracks(i, id) {
              case Failure(_) =>
                entry, calls := Entry(id, playlist.name, FetchTracksFailed), [FetchTracks(id)];
              case Success(tracks) =>
                var name := DestinationName(playlist.name);
                match clients.createPlaylist(i, name) {
                  case Failure(_) =>
                    entry, calls := Entry(id, playlist.name, CreatePlaylistFailed), [FetchTracks(id), CreatePlaylist(name)];
                  case Success(destination) =>
                    calls := [FetchTracks(id), CreatePlaylist(name), AddTracks(destination, tracks)];
                    match clients.addTracks(i, destination, tracks) {
                      case Failure(_) => entry := Entry(id, playlist.name, AddTracksFailed);
                      case Success(_) => entry := Entry(id, playlist.name, Transferred);
                    }
                }
            }
        }
        assert Process(i, id, playlists, clients) == Processed(entry, calls);
        transferProgress := transferProgress + [entry];
        log := log + calls;
        i := i + 1;
      }
    }

    /**
     * `handleTransfer` as written: abort unless both accounts are logged in; otherwise reset the
     * progress list, go to step 4, run the pipelines, and decide the next step from the progress
     * list as it was when the handler started.
     */
    method HandleTransfer(clients: Clients) returns (log: seq<Call>)
      requires Valid() && step == DestinationStep
      modifies this`transferProgress, this`step
      ensures Valid()
      ensures !(SpotifyLoggedIn() && amazonLoggedIn) ==>
                log == [] && transferProgress == old(transferProgress) && step == DestinationStep
      ensures SpotifyLoggedIn() && amazonLoggedIn ==>
                && transferProgress == Report(selected, playlists, clients)
                && log == Log(selected, playlists, clients)
                && step == NextStep(selected, old(transferProgress))
    {
      if !SpotifyLoggedIn() || !amazonLoggedIn {
        return [];
      }
      var consulted := transferProgress;
      transferProgress := [];
      step := TransferringStep;
      log := RunSelected(clients);
      step := NextStep(selected, consulted);
    }

    /** `handleTransfer` with the decision taken from the entries this run appended. */
    method HandleTransferIntended(clients: Clients) returns (log: seq<Call>)
      requires Valid() && step == DestinationStep
      modifies this`transferProgress, this`step
      ensures Valid()
      ensures !(SpotifyLoggedIn() && amazonLoggedIn) ==>
                log == [] && transferProgress == old(transferProgress) && step == DestinationStep
      ensures SpotifyLoggedIn() && amazonLoggedIn ==>
                && transferProgress == Report(selected, playlists, clients)
                && log == Log(selected, playlists, clients)
                && (step == CompleteStep <==> forall i :: 0 <= i < |selected| ==> transferProgress[i].status == Transferred)
                && (step == CompleteStep || step == DestinationStep)
    {
      if !SpotifyLoggedIn() || !amazonLoggedIn {
        return [];
      }
      transferProgress := [];
      step := TransferringStep;
      log := RunSelected(clients);
      IntendedStep(selected, playlists, clients);
      step := NextStep(selected, transferProgress);
    }
  }
}
