/**
 * The transfer pipeline of `handleTransfer` (src/App.jsx): for each selected playlist id, in
 * order, look the id up in the catalog, fetch its tracks, create the destination playlist and add
 * the tracks, appending exactly one progress entry per id. The three service stages are oracles
 * that answer with a value or a failure; the oracles also see the position of the playlist in the
 * selection, so each playlist of a run may meet a different answer.
 */
module Transfer {
  import opened Wrappers
  import opened Selector
  import Spotify

  datatype Status = PlaylistNotFound | FetchTracksFailed | CreatePlaylistFailed | AddTracksFailed | Transferred

  const SuccessText := "Transferred Successfully"

  /** The status strings the progress list shows. */
  function StatusText(s: Status): (r: string)
    ensures s == Transferred <==> r == SuccessText
    ensures s != Transferred ==> |r| > 8 && r[..8] == "Failed: "
  {
    match s
    case PlaylistNotFound => "Failed: Playlist not found"
    case FetchTracksFailed => "Failed: Error fetching tracks"
    case CreatePlaylistFailed => "Failed: Error creating Amazon playlist"
    case AddTracksFailed => "Failed: Error adding tracks"
    case Transferred => SuccessText
  }

  /** Different statuses show different texts, so the text test is a status test. */
  lemma StatusTextInjective(a: Status, b: Status)
    ensures StatusText(a) == StatusText(b) <==> a == b
  {
  }

  /** One element of `transferProgress`. */
  datatype Entry = Entry(spotifyPlaylistId: string, spotifyPlaylistName: string, status: Status)

  const UnknownName := "Unknown"
  const CreatedPrefix := "Created: "

  /** The name of the destination playlist made for a source playlist. */
  function DestinationName(sourceName: string): (r: string)
    ensures |r| == |CreatedPrefix| + |sourceName|
    ensures r[..|CreatedPrefix|] == CreatedPrefix && r[|CreatedPrefix|..] == sourceName
  {
    CreatedPrefix + sourceName
  }

  datatype StageError = StageError

  /** The source and destination clients, each stage an oracle indexed by the position in the run. */
  datatype Clients = Clients(
    fetchTracks: (nat, string) -> Result<seq<Spotify.Track>, StageError>,
    createPlaylist: (nat, string) -> Result<string, StageError>,
    addTracks: (nat, string, seq<Spotify.Track>) -> Result<(), StageError>)

  /** A call the run makes on a client, with the arguments that identify it. */
  datatype Call =
    | FetchTracks(playlistId: string)
    | CreatePlaylist(name: string)
    | AddTracks(destinationId: string, tracks: seq<Spotify.Track>)

  /** `playlists.find(p => p.id === id)`: the first playlist of the catalog with that id. */
  function Find(catalog: seq<Spotify.Playlist>, id: string): (r: Option<Spotify.Playlist>)
    ensures r.Some? ==> r.value in catalog && r.value.id == id
    ensures r.None? <==> forall p :: p in catalog ==> p.id != id
    decreases |catalog|
  {
    if |catalog| == 0 then None
    else if catalog[0].id == id then Some(catalog[0])
    else Find(catalog[1..], id)
  }

  /** The lookup answers with the first match, so it does not depend on later duplicates. */
  lemma {:induction false} FindFirst(catalog: seq<Spotify.Playlist>, id: string, k: nat)
    requires k < |catalog| && catalog[k].id == id
    requires forall j :: 0 <= j < k ==> catalog[j].id != id
    ensures Find(catalog, id) == Some(catalog[k])
    decreases k
  {
    if k > 0 {
      FindFirst(catalog[1..], id, k - 1);
    }
  }

  /** How many client calls a playlist's pipeline made before it stopped with this status. */
  function StagesAttempted(s: Status): nat
  {
    match s
    case PlaylistNotFound => 0
    case FetchTracksFailed => 1
    case CreatePlaylistFailed => 2
    case AddTracksFailed => 3
    case Transferred => 3
  }

  datatype Processed = Processed(entry: Entry, calls: seq<Call>)

  /** The create stage's answer for a found playlist: the playlist named after it. */
  function Created(i: nat, id: string, catalog: seq<Spotify.Playlist>, clients: Clients): Result<string, StageError>
    requires Find(catalog, id).Some?
  {
    clients.createPlaylist(i, DestinationName(Find(catalog, id).value.name))
  }

  /** The add stage's answer once the tracks were fetched and the playlist was created. */
  function Added(i: nat, id: string, catalog: seq<Spotify.Playlist>, clients: Clients): Result<(), StageError>
    requires Find(catalog, id).Some? && clients.fetchTracks(i, id).Success?
    requires Created(i, id, catalog, clients).Success?
  {
    clients.addTracks(i, Created(i, id, catalog, clients).value, clients.fetchTracks(i, id).value)
  }

  /** The pipeline for the playlist at position `i` of the selection: its entry and its client calls. */
  function Process(i: nat, id: string, catalog: seq<Spotify.Playlist>, clients: Clients): (p: Processed)
    ensures p.entry.spotifyPlaylistId == id
    ensures p.entry.status == PlaylistNotFound <==> Find(catalog, id).None?
    ensures Find(catalog, id).None? ==> p.entry.spotifyPlaylistName == UnknownName && p.calls == []
    ensures Find(catalog, id).Some? ==> p.entry.spotifyPlaylistName == Find(catalog, id).value.name
    ensures |p.calls| == StagesAttempted(p.entry.status)
    ensures |p.calls| >= 1 ==> p.calls[0] == FetchTracks(id)
    ensures |p.calls| >= 2 ==> p.calls[1] == CreatePlaylist(DestinationName(Find(catalog, id).value.name))
    ensures Find(catalog, id).Some? && clients.fetchTracks(i, id).Failure? ==>
              p.entry.status == FetchTracksFailed
    ensures Find(catalog, id).Some? && clients.fetchTracks(i, id).Success?
            && Created(i, id, catalog, clients).Failure? ==>
              p.entry.status == CreatePlaylistFailed
    ensures Find(catalog, id).Some? && clients.fetchTracks(i, id).Success?
            && Created(i, id, catalog, clients).Success?
            && Added(i, id, catalog, clients).Failure? ==>
              p.entry.status == AddTracksFailed
    ensures |p.calls| >= 3 ==>
              && Find(catalog, id).Some? && clients.fetchTracks(i, id).Success?
              && Created(i, id, catalog, clients).Success?
              && p.calls[2] == AddTracks(Created(i, id, catalog, clients).value,
                                         clients.fetchTracks(i, id).value)
    ensures p.entry.status == Transferred <==>
              && Find(catalog, id).Some?
              && clients.fetchTracks(i, id).Success?
              && Created(i, id, catalog, clients).Success?
              && Added(i, id, catalog, clients).Success?
  {
    match Find(catalog, id)
    case None => Processed(Entry(id, UnknownName, PlaylistNotFound), [])
    case Some(playlist) =>
      var fetch := FetchTracks(id);
      match clients.fetchTracks(i, id)
      case Failure(_) => Processed(Entry(id, playlist.name, FetchTracksFailed), [fetch])
      case Success(tracks) =>
        var name := DestinationName(playlist.name);
        match clients.createPlaylist(i, name)
        case Failure(_) => Processed(Entry(id, playlist.name, CreatePlaylistFailed), [fetch, CreatePlaylist(name)])
        case Success(destination) =>
          var calls := [fetch, CreatePlaylist(name), AddTracks(destination, tracks)];
          match clients.addTracks(i, destination, tracks)
          case Failure(_) => Processed(Entry(id, playlist.name, AddTracksFailed), calls)
          case Success(_) => Processed(Entry(id, playlist.name, Transferred), calls)
  }

  /** The progress list after the first `n` ids of the selection. */
  function Entries(ids: seq<string>, catalog: seq<Spotify.Playlist>, clients: Clients, n: nat): (r: seq<Entry>)
    requires n <= |ids|
    ensures |r| == n
    ensures forall i :: 0 <= i < n ==> r[i].spotifyPlaylistId == ids[i]
  {
    if n == 0 then [] else Entries(ids, catalog, clients, n - 1) + [Process(n - 1, ids[n - 1], catalog, clients).entry]
  }

  /** The client calls made for the first `n` ids of the selection, in the order they are made. */
  function Calls(ids: seq<string>, catalog: seq<Spotify.Playlist>, clients: Clients, n: nat): (r: seq<Call>)
    requires n <= |ids|
    ensures |r| <= 3 * n
    ensures forall k :: 0 <= k < |r| && r[k].FetchTracks? ==>
              r[k].playlistId in ids && Find(catalog, r[k].playlistId).Some?
  {
    if n == 0 then [] else Calls(ids, catalog, clients, n - 1) + Process(n - 1, ids[n - 1], catalog, clients).calls
  }

  function Report(ids: seq<string>, catalog: seq<Spotify.Playlist>, clients: Clients): (r: seq<Entry>)
    ensures |r| == |ids|
    ensures forall i :: 0 <= i < |ids| ==> r[i].spotifyPlaylistId == ids[i]
  {
    Entries(ids, catalog, clients, |ids|)
  }

  function Log(ids: seq<string>, catalog: seq<Spotify.Playlist>, clients: Clients): (r: seq<Call>)
    ensures |r| <= 3 * |ids|
    ensures forall k :: 0 <= k < |r| && r[k].FetchTracks? ==>
              r[k].playlistId in ids && Find(catalog, r[k].playlistId).Some?
  {
    Calls(ids, catalog, clients, |ids|)
  }

  /** Entry `i` of the list is the outcome of the pipeline for the `i`-th id, and nothing else is in it. */
  lemma {:induction false} EntriesAt(ids: seq<string>, catalog: seq<Spotify.Playlist>, clients: Clients, n: nat)
    requires n <= |ids|
    ensures |Entries(ids, catalog, clients, n)| == n
    ensures forall i :: 0 <= i < n ==> Entries(ids, catalog, clients, n)[i] == Process(i, ids[i], catalog, clients).entry
  {
    if n > 0 {
      EntriesAt(ids, catalog, clients, n - 1);
    }
  }

  /** One entry per selected id, in selection order. */
  lemma ReportComplete(ids: seq<string>, catalog: seq<Spotify.Playlist>, clients: Clients)
    ensures |Report(ids, catalog, clients)| == |ids|
    ensures forall i :: 0 <= i < |ids| ==> Report(ids, catalog, clients)[i].spotifyPlaylistId == ids[i]
    ensures forall i :: 0 <= i < |ids| ==> Report(ids, catalog, clients)[i] == Process(i, ids[i], catalog, clients).entry
  {
    EntriesAt(ids, catalog, clients, |ids|);
  }

  /**
   * A failure at one position never changes the entry at another: the entry at position `j` is the
   * same for any two clients that answer alike at `j`.
   */
  lemma Isolation(ids: seq<string>, catalog: seq<Spotify.Playlist>, c1: Clients, c2: Clients, j: nat)
    requires j < |ids|
    requires forall id :: c1.fetchTracks(j, id) == c2.fetchTracks(j, id)
    requires forall name :: c1.createPlaylist(j, name) == c2.createPlaylist(j, name)
    requires forall d, ts :: c1.addTracks(j, d, ts) == c2.addTracks(j, d, ts)
    ensures Report(ids, catalog, c1)[j] == Report(ids, catalog, c2)[j]
  {
    ReportComplete(ids, catalog, c1);
    ReportComplete(ids, catalog, c2);
  }

  /**
   * The call at position `k` of a log keeps the stage order: a create call directly follows the
   * fetch of a catalog playlist and is named after it, and an add call directly follows a create call.
   */
  predicate InOrderAt(log: seq<Call>, catalog: seq<Spotify.Playlist>, k: nat)
    requires k < |log|
  {
    && (log[k].CreatePlaylist? ==>
          && k > 0 && log[k - 1].FetchTracks? && Find(catalog, log[k - 1].playlistId).Some?
          && log[k].name == DestinationName(Find(catalog, log[k - 1].playlistId).value.name))
    && (log[k].AddTracks? ==> k > 0 && log[k - 1].CreatePlaylist?)
  }

  predicate InStageOrder(log: seq<Call>, catalog: seq<Spotify.Playlist>)
  {
    forall k :: 0 <= k < |log| ==> InOrderAt(log, catalog, k)
  }

  /** Across the whole run, every call keeps the stage order. */
  lemma {:induction false} StageOrder(ids: seq<string>, catalog: seq<Spotify.Playlist>, clients: Clients, n: nat)
    requires n <= |ids|
    ensures InStageOrder(Calls(ids, catalog, clients, n), catalog)
  {
    if n > 0 {
      StageOrder(ids, catalog, clients, n - 1);
      var prev := Calls(ids, catalog, clients, n - 1);
      var here := Process(n - 1, ids[n - 1], catalog, clients).calls;
      var all := Calls(ids, catalog, clients, n);
      assert all == prev + here;
      var id := ids[n - 1];
      forall k | 0 <= k < |all| ensures InOrderAt(all, catalog, k) {
        if k < |prev| {
          assert InOrderAt(prev, catalog, k);
          assert all[k] == prev[k];
          if k > 0 {
            assert all[k - 1] == prev[k - 1];
          }
        } else {
          var m := k - |prev|;
          assert all[k] == here[m];
          assert Find(catalog, id).Some? && here[0] == FetchTracks(id);
          if m == 1 {
            assert all[k - 1] == here[0];
          } else if m == 2 {
            assert all[k - 1] == here[1];
          }
        }
      }
    }
  }

  /** Every destination playlist the run asks for is named `Created: ` and the source playlist's name. */
  lemma {:induction false} CreatedNames(ids: seq<string>, catalog: seq<Spotify.Playlist>, clients: Clients, n: nat)
    requires n <= |ids|
    ensures forall k :: 0 <= k < |Calls(ids, catalog, clients, n)| && Calls(ids, catalog, clients, n)[k].CreatePlaylist? ==>
              exists p :: p in catalog && Calls(ids, catalog, clients, n)[k].name == DestinationName(p.name)
  {
    if n > 0 {
      CreatedNames(ids, catalog, clients, n - 1);
      var prev := Calls(ids, catalog, clients, n - 1);
      var here := Process(n - 1, ids[n - 1], catalog, clients).calls;
      var all := Calls(ids, catalog, clients, n);
      forall k | 0 <= k < |all| && all[k].CreatePlaylist?
        ensures exists p :: p in catalog && all[k].name == DestinationName(p.name)
      {
        if k < |prev| {
          assert all[k] == prev[k];
        } else {
          assert all[k] == here[k - |prev|];
          var p := Find(catalog, ids[n - 1]).value;
          assert all[k].name == DestinationName(p.name);
        }
      }
    }
  }

  // ---------------------------------------------------------------- the step after the run

  /** `progress.spotifyPlaylistId === id && progress.status === 'Transferred Successfully'`. */
  predicate SucceededFor(e: Entry, id: string)
    ensures SucceededFor(e, id) <==> e.spotifyPlaylistId == id && e.status == Transferred
  {
    e.spotifyPlaylistId == id && StatusText(e.status) == SuccessText
  }

  /** `consulted.some(progress => …)`: some entry of the list is a success for the id. */
  predicate HasSuccess(consulted: seq<Entry>, id: string)
    ensures HasSuccess(consulted, id) <==>
              exists j :: 0 <= j < |consulted| && consulted[j].spotifyPlaylistId == id && consulted[j].status == Transferred
  {
    exists j :: 0 <= j < |consulted| && SucceededFor(consulted[j], id)
  }

  /** `selectedPlaylists.every(playlistId => transferProgress.some(…))`. */
  predicate AllSuccessful(selected: seq<string>, consulted: seq<Entry>)
    ensures |selected| == 0 ==> AllSuccessful(selected, consulted)
    ensures AllSuccessful(selected, consulted) <==> forall id :: id in selected ==> HasSuccess(consulted, id)
  {
    forall i :: 0 <= i < |selected| ==> HasSuccess(consulted, selected[i])
  }

  /** The wizard step the run ends on, decided from the progress list it consults. */
  function NextStep(selected: seq<string>, consulted: seq<Entry>): (step: int)
    ensures step == 5 || step == 3
    ensures step == 5 <==> AllSuccessful(selected, consulted)
  {
    if AllSuccessful(selected, consulted) then 5 else 3
  }

  /** A success entry for the `i`-th id of a duplicate-free selection can only be entry `i`. */
  lemma SuccessAt(ids: seq<string>, r: seq<Entry>, i: nat)
    requires NoDuplicates(ids) && |r| == |ids| && i < |ids|
    requires forall k :: 0 <= k < |ids| ==> r[k].spotifyPlaylistId == ids[k]
    requires AllSuccessful(ids, r)
    ensures r[i].status == Transferred
  {
    var j :| 0 <= j < |r| && SucceededFor(r[j], ids[i]);
    assert ids[j] == ids[i];
  }

  /** A list whose entry `i` is a success for the `i`-th id passes the all-success test. */
  lemma AllAtSucceed(ids: seq<string>, r: seq<Entry>)
    requires |r| == |ids|
    requires forall k :: 0 <= k < |ids| ==> r[k].spotifyPlaylistId == ids[k] && r[k].status == Transferred
    ensures AllSuccessful(ids, r)
  {
    forall i | 0 <= i < |ids|
      ensures HasSuccess(r, ids[i])
    {
      assert SucceededFor(r[i], ids[i]);
    }
    assert AllSuccessful(ids, r);
  }

  /** Without any success entry, a non-empty selection fails the all-success test. */
  lemma NoneSucceed(ids: seq<string>, r: seq<Entry>)
    requires |ids| > 0
    requires forall k :: 0 <= k < |r| ==> r[k].status != Transferred
    ensures !AllSuccessful(ids, r)
  {
    assert !HasSuccess(r, ids[0]);
  }

  /**
   * Decided from the run's own entries, the step is 5 exactly when every playlist was transferred;
   * a selection without duplicates is needed, else another copy of an id could stand in for it.
   */
  lemma IntendedStep(ids: seq<string>, catalog: seq<Spotify.Playlist>, clients: Clients)
    requires NoDuplicates(ids)
    ensures NextStep(ids, Report(ids, catalog, clients)) == 5 <==>
            forall i :: 0 <= i < |ids| ==> Report(ids, catalog, clients)[i].status == Transferred
  {
    var r := Report(ids, catalog, clients);
    ReportComplete(ids, catalog, clients);
    if AllSuccessful(ids, r) {
      forall i | 0 <= i < |ids| ensures r[i].status == Transferred {
        SuccessAt(ids, r, i);
      }
    }
    if forall i :: 0 <= i < |ids| ==> r[i].status == Transferred {
      AllAtSucceed(ids, r);
    }
  }

  /** Clients under which every stage succeeds. */
  function AlwaysSucceeding(): Clients
  {
    Clients((i, id) => Success([]), (i, name) => Success("destination"), (i, d, ts) => Success(()))
  }

  const Mix := Spotify.Playlist("p1", "Mix", "owner", 0, None)

  /**
   * As written, the decision reads the progress list as it was before the run. On a first run that
   * list is empty, so a run in which every playlist was transferred still ends on step 3.
   */
  lemma StaleDecisionMissesSuccess()
    ensures Report(["p1"], [Mix], AlwaysSucceeding()) == [Entry("p1", "Mix", Transferred)]
    ensures NextStep(["p1"], Report(["p1"], [Mix], AlwaysSucceeding())) == 5
    ensures NextStep(["p1"], []) == 3
  {
    assert Find([Mix], "p1") == Some(Mix);
    assert Entries(["p1"], [Mix], AlwaysSucceeding(), 0) == [];
    var r := Report(["p1"], [Mix], AlwaysSucceeding());
    assert SucceededFor(r[0], "p1");
  }

  /**
   * As written, after a run that transferred a playlist, a later run of the same selection in which
   * that playlist fails still ends on step 5, because the old success entry is consulted.
   */
  lemma StaleDecisionReportsOldSuccess()
    ensures var failing := Clients((i, id) => Failure(StageError), (i, name) => Success("d"), (i, d, ts) => Success(()));
            && Report(["p1"], [Mix], failing) == [Entry("p1", "Mix", FetchTracksFailed)]
            && NextStep(["p1"], Report(["p1"], [Mix], failing)) == 3
            && NextStep(["p1"], [Entry("p1", "Mix", Transferred)]) == 5
  {
    var failing := Clients((i, id) => Failure(StageError), (i, name) => Success("d"), (i, d, ts) => Success(()));
    assert Find([Mix], "p1") == Some(Mix);
    assert Entries(["p1"], [Mix], failing, 0) == [];
    var consulted := [Entry("p1", "Mix", Transferred)];
    assert SucceededFor(consulted[0], "p1");
  }

  /**
   * With an add stage that always throws (as `addTracksToPlaylist`, a static method called on an
   * instance, does), no playlist is ever transferred. A non-empty run then ends on step 3 whichever
   * list is consulted: its own entries, the empty list before a first run, or (as written) the
   * entries of the run before it, `earlier`, made under the same clients.
   */
  lemma FailingAddNeverTransfers(ids: seq<string>, earlier: seq<string>, catalog: seq<Spotify.Playlist>,
                                 clients: Clients)
    requires forall i, d, ts :: clients.addTracks(i, d, ts).Failure?
    ensures forall i :: 0 <= i < |ids| ==> Report(ids, catalog, clients)[i].status != Transferred
    ensures |ids| > 0 ==> NextStep(ids, Report(ids, catalog, clients)) == 3
    ensures |ids| > 0 ==> NextStep(ids, []) == 3
    ensures |ids| > 0 ==> NextStep(ids, Report(earlier, catalog, clients)) == 3
  {
    ReportComplete(ids, catalog, clients);
    ReportComplete(earlier, catalog, clients);
    if |ids| > 0 {
      NoneSucceed(ids, Report(ids, catalog, clients));
      NoneSucceed(ids, []);
      NoneSucceed(ids, Report(earlier, catalog, clients));
    }
  }

  /**
   * Three playlists, the third missing from the catalog, the second failing to fetch: the report
   * lists them in selection order with their own outcomes.
   */
  lemma MixedRun()
    ensures var catalog := [Spotify.Playlist("p1", "One", "o", 1, None), Spotify.Playlist("p2", "Two", "o", 2, None)];
            var clients := Clients((i, id) => if id == "p1" then Success([]) else Failure(StageError),
                                   (i, name) => Success("d"), (i, d, ts) => Success(()));
            Report(["p1", "p2", "p3"], catalog, clients)
            == [Entry("p1", "One", Transferred), Entry("p2", "Two", FetchTracksFailed),
                Entry("p3", UnknownName, PlaylistNotFound)]
  {
    var catalog := [Spotify.Playlist("p1", "One", "o", 1, None), Spotify.Playlist("p2", "Two", "o", 2, None)];
    var clients := Clients((i, id) => if id == "p1" then Success([]) else Failure(StageError),
                           (i, name) => Success("d"), (i, d, ts) => Success(()));
    var ids := ["p1", "p2", "p3"];
    assert Find(catalog, "p1") == Some(catalog[0]);
    assert Find(catalog, "p2") == Some(catalog[1]);
    assert Find(catalog, "p3") == None;
    ReportComplete(ids, catalog, clients);
  }
}
