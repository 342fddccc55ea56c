/** The script's driver: resolve the channel references, expand them into a
    playlist worklist, ingest every playlist, commit, then materialise the
    feed from the store. A fault before the commit aborts the run with exit
    status 1; since the rows are committed only after the whole ingestion
    loop, the upserts issued before such a fault are never made durable. */
module Pipeline {
  import opened Catalog
  import opened Resolver
  import opened Expander
  import opened Reconcile
  import opened Feed

  /** The contents of the input file: explicit playlist ids and channel references. */
  datatype Input = Input(playlistIds: seq<string>, channelRefs: seq<string>)

  datatype Outcome = Done(feed: seq<FeedEntry>) | Failed(kind: FaultKind)

  /** The process exit status: 0 after a full run, 1 for every class of fault. */
  function ExitCode(outcome: Outcome): (code: int)
    ensures code == 0 <==> outcome.Done?
    ensures code == 0 || code == 1
  {
    if outcome.Done? then 0 else 1
  }

  /** The playlist ids a run ingests, in order. */
  function PlannedIds(api: Api, input: Input): Reply<seq<string>> {
    match Resolved(api, input.channelRefs)
    case Fault(k) => Fault(k)
    case Ok(channelIds) => Worklist(api, input.playlistIds, channelIds)
  }

  /** The tables a run leaves behind when it reaches the commit. */
  function RunTables(api: Api, input: Input, db: Db): Reply<Db> {
    match PlannedIds(api, input)
    case Fault(k) => Fault(k)
    case Ok(pids) => Ingested(api, db, pids)
  }

  /** The whole script up to the feed document, from a connection with
      nothing pending; faults after the commit are not modelled. */
  method Run(api: Api, input: Input, store: Store) returns (outcome: Outcome)
    requires store.Clean()
    modifies store
    ensures store.Clean()
    ensures RunTables(api, input, old(store.Tables())).Fault? ==>
      outcome == Failed(RunTables(api, input, old(store.Tables())).kind) &&
      store.Tables() == old(store.Tables())
    ensures RunTables(api, input, old(store.Tables())).Ok? ==>
      outcome.Done? && store.Tables() == RunTables(api, input, old(store.Tables())).value &&
      IsFeedOf(outcome.feed, store.Tables())
  {
    var channels := ResolveChannels(api, input.channelRefs);
    if channels.Fault? {
      store.Rollback();
      return Failed(channels.kind);
    }
    var worklist := ExpandPlaylists(api, input.playlistIds, channels.value);
    if worklist.Fault? {
      store.Rollback();
      return Failed(worklist.kind);
    }
    var fault := store.IngestAll(api, worklist.value);
    if fault.Some? {
      store.Rollback();
      return Failed(fault.value);
    }
    store.Commit();
    var feed := Materialize(store);
    return Done(feed);
  }

  /** Running the script twice with identical input and identical replies
      leaves the same store as running it once (and so the same feed, up to
      order). */
  lemma RunIdempotent(api: Api, input: Input, db: Db)
    requires RunTables(api, input, db).Ok?
    ensures RunTables(api, input, RunTables(api, input, db).value) == RunTables(api, input, db)
  {
    IngestedIdempotent(api, db, PlannedIds(api, input).value);
  }

  /** A run never deletes a row, and every stored video URL stays canonical. */
  lemma RunKeepsRowsAndUrls(api: Api, input: Input, db: Db)
    requires UrlsCanonical(db)
    requires RunTables(api, input, db).Ok?
    ensures UrlsCanonical(RunTables(api, input, db).value)
    ensures db.playlists.Keys <= RunTables(api, input, db).value.playlists.Keys
    ensures db.videos.Keys <= RunTables(api, input, db).value.videos.Keys
  {
    var pids := PlannedIds(api, input).value;
    IngestedKeepsUrlsCanonical(api, db, pids);
    IngestedOverlay(api, db, pids);
  }

  /** The replies of an example run: handle @creator resolves to channel
      C9, whose one playlist PL1 ("Talks", no description) holds one video v1
      ("Intro", no description). */
  function ExampleApi(): Api {
    Api(
      (q: string) => if q == "@creator" then Ok(["C9"]) else Ok([]),
      (c: string) => if c == "C9" then Ok(["PL1"]) else Ok([]),
      (p: string) => if p == "PL1" then Ok([PlaylistResource("PL1", "Talks", None)]) else Ok([]),
      (p: string) => if p == "PL1" then Ok([PlaylistItem("v1", "Intro", None)]) else Ok([]))
  }

  const ExampleInput := Input([], ["@creator"])

  /** The store the example run leaves, starting from empty tables. */
  function ExampleTables(): Db {
    Db(map["PL1" := PlaylistRow("Talks", "")],
       map["v1" := VideoRow("PL1", "Intro", "https://www.youtube.com/watch?v=v1", "")])
  }

  /** From an empty store, the input {"playlist_ids": [], "channel_ids":
      ["@creator"]} stores playlist PL1 and video v1 with its canonical URL
      and empty descriptions. */
  lemma ExampleRunTables()
    ensures RunTables(ExampleApi(), ExampleInput, EmptyDb) == Ok(ExampleTables())
  {
    var api := ExampleApi();
    ResolvedSingle(api, "@creator");
    DiscoveredInChannelOrder(api, [], [], "C9");
    assert PlannedIds(api, ExampleInput) == Ok(["PL1"]);
    assert ["PL1"][..0] == [];
    assert Ingested(api, EmptyDb, ["PL1"]) == IngestStep(api, EmptyDb, "PL1");
    assert WatchUrl("v1") == "https://www.youtube.com/watch?v=v1";
  }

  /** The example's feed document is exactly one entry, PL1, holding exactly
      the video v1. */
  lemma ExampleFeed(feed: seq<FeedEntry>)
    requires IsFeedOf(feed, ExampleTables())
    ensures feed == [FeedEntry("Talks", "PL1", "", "youtube_playlist",
      [VideoView("Intro", "https://www.youtube.com/watch?v=v1", "")])]
  {
    var db := ExampleTables();
    OneEntryPerPlaylist(feed, db);
    assert "PL1" in FeedIds(feed);
    var e := feed[0];
    assert db.videos.Keys == {"v1"};
    ViewsAmongPick(db.videos, {"v1"}, "v1", "PL1");
    assert {"v1"} - {"v1"} == {};
    var view := VideoView("Intro", "https://www.youtube.com/watch?v=v1", "");
    assert EntryOf(e, db);
    assert multiset(e.videos) == multiset{view};
    SingletonSeq(e.videos, view);
  }

  /** Explicit and discovered playlists merge: every playlist of the worklist
      that its lookup finds has exactly one entry in the feed, however often
      it occurs in the worklist. */
  lemma WorklistPlaylistInFeed(api: Api, input: Input, db: Db, feed: seq<FeedEntry>, k: nat)
    requires RunTables(api, input, db).Ok?
    requires IsFeedOf(feed, RunTables(api, input, db).value)
    requires k < |PlannedIds(api, input).value|
    requires var pid := PlannedIds(api, input).value[k];
      api.playlistsById(pid).Ok? &&
      exists i :: 0 <= i < |api.playlistsById(pid).value| && api.playlistsById(pid).value[i].id == pid
    ensures exists i :: 0 <= i < |feed| && feed[i].id == PlannedIds(api, input).value[k]
    ensures forall i, j ::
      (0 <= i < |feed| && 0 <= j < |feed| &&
       feed[i].id == PlannedIds(api, input).value[k] && feed[j].id == PlannedIds(api, input).value[k]) ==> i == j
  {
    var pids := PlannedIds(api, input).value;
    var pid := pids[k];
    IngestedStoresFound(api, db, pids, k, pid);
    assert pid in FeedIds(feed);
  }

  lemma SingletonSeq<T>(s: seq<T>, x: T)
    requires multiset(s) == multiset{x}
    ensures s == [x]
  {
  }
}
