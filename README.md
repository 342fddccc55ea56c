# YouTube playlist feed: ingestion and reconciliation, in Dafny

This project models the script `youtube_playlist_feed.py`. The script reads a
list of explicit playlist ids and a list of channel references. It resolves the
channel references: a reference starting with `@` is a handle, looked up with a
one-result channel search; any other reference is taken as a channel id. It
appends the first page of each channel's playlists to the explicit playlist ids.
For every playlist id in that worklist, it upserts the playlist resources the
lookup returns into the `playlists` table, then upserts one row per playlist
item into the `videos` table. Both tables are written with
`INSERT OR REPLACE`, keyed by id. It commits the rows once, after the whole
ingestion loop (line 128; the earlier commit at line 43 only makes the table
definitions durable). It then writes a feed document
with one `"youtube_playlist"` entry per playlist row, embedding the title, URL
and description of the videos stored under that playlist.

The model has six modules, one per component:

- `Catalog` (`catalog.dfy`): the remote API as a record of four functions
  (`Api`). Each returns a `Reply`: the first page of results, or a `Fault`
  that aborts the run. It also holds the watch-URL template and the
  missing-description default. `Gather` is the "call for each element in
  order, append, stop at the first fault" fold that the resolution and
  expansion loops share.
- `Resolver` (`resolver.dfy`): the handle/id resolution loop (`ResolveChannels`).
  It is specified by `Resolved`.
- `Expander` (`expander.dfy`): the channel-to-playlist expansion loop
  (`ExpandPlaylists`). It is specified by `Worklist`.
- `Reconcile` (`reconcile.dfy`): the two tables as maps (`Db`) and the
  ingestion as functions (`Upserts`, `IngestStep`, `Ingested`). It also has the
  class `Store`, the open connection. `Store` keeps the tables in fields that
  its upsert methods reassign in place, plus the state made durable by the last
  commit.
- `Feed` (`feed.dfy`): the two `SELECT` loops (`SelectVideos`, `Materialize`).
  They are specified by `IsFeedOf`. The store guarantees no row order, so the
  feed is specified up to order: the entries as a set of ids, and an entry's
  videos as a multiset.
- `Pipeline` (`pipeline.dfy`): the driver `Run`, the exit status, whole-run
  idempotence, and an example run (handle `@creator` → channel `C9` →
  playlist `PL1` → video `v1`).

Two consequences of the code are easy to miss, and the model follows the code
in both:

- **Rows written before a fault are not kept.** The code commits the rows only
  after the whole ingestion loop (line 128). A fault during resolution,
  expansion or ingestion reaches the handlers at lines 168-178, and the process
  exits with status 1 without a commit, so SQLite rolls the open transaction
  back. `Store.Rollback` models that exit. So `Run` promises that a fault before
  the commit leaves the tables exactly as they were before the run. Faults after
  the commit are not modelled (see "Left out").
- **The playlist id is rebound.** The loop over the lookup reply rebinds
  `playlist_id` (line 98). The items are therefore fetched, and the videos
  stored, under the id of the LAST resource the lookup returned (`OwnerId`).
  When the lookup returns nothing, the requested id is used instead. In that
  case no playlist row is written, but the videos are still stored under the
  requested id. Unless an earlier run stored a playlist row under that id, the
  id has no row, and these videos never reach the feed.
  `UnfoundPlaylistOrphansItsVideos` exhibits this. `IngestStepKeepsOwnersStored`
  proves the foreign key is kept whenever the lookup finds the playlist.

## Model

| member | source | states |
|---|---|---|
| `Catalog.WatchUrl` | youtube_playlist_feed.py:119 | a video's URL is the fixed watch prefix followed by exactly its id |
| `Catalog.OrEmpty` | youtube_playlist_feed.py:100 | a missing snippet description reads as the empty string, a present one as itself |
| `Resolver.ResolveOne` | youtube_playlist_feed.py:58-74 | one reference yields at most one id: itself when it is not a handle; for a handle, the first search hit, nothing on a miss, and the search's fault when it fails |
| `Resolver.ResolveChannels` | youtube_playlist_feed.py:56-74 | the resolution loop returns exactly `Resolved` of the references, or the fault of the first failing search |
| `Resolver.ResolvedSingle` | youtube_playlist_feed.py:57-74 | a non-`@` reference is kept literally; a handle becomes the first hit of its search, is dropped on a miss, and a failed search is a fault |
| `Resolver.ResolvedAppend` | youtube_playlist_feed.py:57-74 | resolution works reference by reference in input order: the ids of a concatenation are those of the first part followed by those of the second |
| `Resolver.ResolvedNoLonger` | youtube_playlist_feed.py:67-71 | the resolved list is never longer than the input, and exactly as long when no handle misses |
| `Resolver.ResolvedLiterals` | youtube_playlist_feed.py:72-74 | a list without handles resolves to itself, unchanged |
| `Resolver.MissIsSkipped` | youtube_playlist_feed.py:67-71 | a handle with no hit drops out, and the references after it are still resolved |
| `Expander.ExpandPlaylists` | youtube_playlist_feed.py:77-86 | the expansion loop returns exactly the worklist: the explicit ids followed by every discovered id, or the first listing's fault |
| `Expander.ExplicitIdsFirst` | youtube_playlist_feed.py:77-86 | the explicit ids stay a prefix of the worklist, in order, and the rest is exactly the discovered ids |
| `Expander.DiscoveredInChannelOrder` | youtube_playlist_feed.py:77-86 | discovered ids follow channel order, and one channel contributes exactly its listing |
| `Expander.NoDeduplication` | youtube_playlist_feed.py:85-86 | the worklist's length is the explicit ids plus every listing's length, so duplicates are kept |
| `Reconcile.UpsertOne` | youtube_playlist_feed.py:102-105 | upserting one element sets the row under its key, leaves every other row unchanged, and adds at most one id |
| `Reconcile.UpsertsKeys` | youtube_playlist_feed.py:102-105 | a series of upserts only adds keys: the old ids plus the ids written |
| `Reconcile.UpsertsUntouched` | youtube_playlist_feed.py:122-125 | a row whose id none of the upserts carries is unchanged, or stays absent |
| `Reconcile.UpsertsLastWins` | youtube_playlist_feed.py:122-125 | last write wins: the stored row is the one built from the last element with that id |
| `Reconcile.UpsertsOverlay` | youtube_playlist_feed.py:102-105 | upserting into overlaid tables only changes the upper table, so earlier rows take no part in the result |
| `Reconcile.PlaylistRowOf` | youtube_playlist_feed.py:99-100 | a playlist row keeps the resource's title, and its description or "" when there is none |
| `Reconcile.VideoRowOf` | youtube_playlist_feed.py:117-120 | a video row names the given playlist id, keeps the item's title, has the watch prefix followed by exactly the video id as URL, and the description or "" |
| `Reconcile.OwnerId` | youtube_playlist_feed.py:97-98 | the id the items are fetched and stored under is the last resource's id, or the requested id when the lookup found nothing |
| `Reconcile.IngestStep` | youtube_playlist_feed.py:89-125 | one playlist's iteration succeeds exactly when its lookup and its items call do, reports the first failing call's fault, and adds exactly the found playlist ids and the listed video ids to the tables |
| `Reconcile.Ingested` | youtube_playlist_feed.py:89-125 | the ingestion loop over a worklist never removes an id from either table |
| `Reconcile.IngestStepOverlay` | youtube_playlist_feed.py:89-125 | one playlist's ingestion commutes with overlaying older rows beneath the tables |
| `Reconcile.IngestedOverlay` | youtube_playlist_feed.py:89-125 | whether ingestion faults depends on the replies alone; the resulting tables are the old ones overlaid by what the run writes, so no row is deleted |
| `Reconcile.IngestedIdempotent` | youtube_playlist_feed.py:89-125 | ingesting the same worklist again with the same replies leaves the tables unchanged |
| `Reconcile.IngestStepIdempotent` | youtube_playlist_feed.py:96-125 | re-processing one playlist with the same replies leaves the tables unchanged |
| `Reconcile.PutVideosCanonical` | youtube_playlist_feed.py:116-125 | upserting items keeps every stored video's URL equal to the watch URL of its id |
| `Reconcile.IngestedKeepsUrlsCanonical` | youtube_playlist_feed.py:116-125 | ingestion into a store whose URLs are all canonical leaves every stored video's URL equal to the watch URL of its id |
| `Reconcile.LastListingWins` | youtube_playlist_feed.py:89-125 | a video listed under several playlists ends up stored under the owner id of the last one processed |
| `Reconcile.IngestedStoresFound` | youtube_playlist_feed.py:96-105 | every playlist resource found for any worklist entry has a row afterwards |
| `Reconcile.IngestStepKeepsOwnersStored` | youtube_playlist_feed.py:96-125 | when the lookup finds the playlist, the id its videos are stored under has a playlist row, so every stored video keeps pointing at a stored playlist |
| `Reconcile.UnfoundPlaylistOrphansItsVideos` | youtube_playlist_feed.py:96-125 | when the lookup finds nothing, the playlist table is unchanged, every item is still stored with the requested id as its playlist, and that id has no playlist row |
| `Reconcile.IngestedFaultPrefix` | youtube_playlist_feed.py:89-94 | a fault while ingesting a prefix of the worklist is the fault of the whole run |
| `Reconcile.Store.constructor` | youtube_playlist_feed.py:22-23 | a fresh connection sees the durable tables, with nothing pending |
| `Reconcile.Store.UpsertPlaylist` | youtube_playlist_feed.py:102-105 | the playlist table gains or replaces exactly the row under the id, keeps every other row, and grows by at most one; the video table and the durable state are unchanged |
| `Reconcile.Store.UpsertVideo` | youtube_playlist_feed.py:122-125 | the video table gains or replaces exactly the row under the id, keeps every other row, and grows by at most one; the playlist table and the durable state are unchanged |
| `Reconcile.Store.Commit` | youtube_playlist_feed.py:128 | the pending tables become the durable state, unchanged |
| `Reconcile.Store.Rollback` | youtube_playlist_feed.py:168-178 | leaving without a commit discards the pending upserts: the tables return to the durable state |
| `Reconcile.Store.IngestPlaylist` | youtube_playlist_feed.py:89-125 | one loop iteration leaves exactly `IngestStep`'s tables, or reports the fault; the playlist rows are written before the items are fetched: on an items fault they are in place while the video table is as it was |
| `Reconcile.Store.IngestAll` | youtube_playlist_feed.py:89-125 | the ingestion loop leaves exactly `Ingested`'s tables, or reports the first fault, and never commits |
| `Feed.ViewsAmongPick` | youtube_playlist_feed.py:143-144 | the videos selected for a playlist do not depend on the order the rows are visited in |
| `Feed.ViewsAmongMembers` | youtube_playlist_feed.py:143-156 | a view is selected for a playlist exactly when some video row stored under that playlist projects to it |
| `Feed.EntryShowsItsVideos` | youtube_playlist_feed.py:143-156 | an entry's videos are exactly the (title, url, description) projections of the rows whose playlist id is the entry's id |
| `Feed.OneEntryPerPlaylist` | youtube_playlist_feed.py:138-145 | a feed has exactly as many entries as the store has playlist rows |
| `Feed.FeedUniqueUpToOrder` | youtube_playlist_feed.py:138-157 | two feeds of one store hold the same entries with the same videos, up to order |
| `Feed.SelectVideos` | youtube_playlist_feed.py:143-144 | the scan returns, as a multiset, exactly the views of the rows stored under the playlist |
| `Feed.Materialize` | youtube_playlist_feed.py:138-157 | the feed loop yields one entry per playlist row, each tagged "youtube_playlist", carrying its row's title and description and exactly its videos |
| `Pipeline.ExitCode` | youtube_playlist_feed.py:168-178 | the exit status is 0 exactly for a completed run, and 1 for every fault class |
| `Pipeline.Run` | youtube_playlist_feed.py:55-157 | a fault before the commit yields its class and leaves the tables as before the run; otherwise the committed tables are the ingestion's result and the feed materialises them |
| `Pipeline.RunIdempotent` | youtube_playlist_feed.py:55-128 | running the whole script twice with the same input and replies leaves the same store as running it once |
| `Pipeline.RunKeepsRowsAndUrls` | youtube_playlist_feed.py:89-128 | a run deletes no row and keeps every stored URL canonical |
| `Pipeline.ExampleRunTables` | youtube_playlist_feed.py:55-128 | from empty tables, the `@creator` example stores PL1 ("Talks", "") and v1 under PL1 with its watch URL and "" |
| `Pipeline.ExampleFeed` | youtube_playlist_feed.py:138-157 | the example's feed is exactly one "youtube_playlist" entry PL1 holding exactly video v1 |
| `Pipeline.WorklistPlaylistInFeed` | youtube_playlist_feed.py:77-145 | a worklist playlist that its lookup finds has exactly one feed entry, however often it occurs in the worklist |

## Left out

- The API client construction, the credential and the HTTP calls (lines 4-15, 60-66, 78-83, 90-94, 108-113) are not modelled. Each call is a function parameter returning its reply or a fault.
- Pagination is not modelled. A reply stands for the first page; the page-size bounds (1 and 50) are not imposed on the replies.
- Reading `playlists.json` (lines 46-53) is file I/O and is left out, with its defaults for a missing file or a missing key. The input is an `Input` value holding sequences of strings. So the exit-1 path for a non-string channel reference (its `startswith` call at line 58 raises, and line 176 exits) is not modelled.
- Writing `feed.json` (lines 160-161) is file I/O and JSON serialisation and is left out. The feed is returned as a value.
- The `print` diagnostics (lines 71, 131, 166, 169, 173, 177) are output only and are left out.
- The table definitions and their commit (lines 25-43), the cursors (lines 23, 135), and closing and reopening the connection (lines 129, 134, 164) are not modelled. The tables are maps, and reconnecting to read the feed is reading the committed tables. Opening the connection (line 22) is modelled by `Store`'s constructor, the commit at line 128 by `Store.Commit`, and the exit without a commit by `Store.Rollback`. `NOT NULL` constraints and foreign keys are not enforced, and SQLite does not enforce foreign keys by default either.
- Store operations never fail in the model. A store fault, or a malformed API response that the script would meet with a `KeyError`, can only come from a remote call, as a `Fault` of the matching class.
- Row order of `SELECT` is not modelled (lines 138-144). The feed is specified up to the order of its entries and of each entry's videos.
- Pipeline.Run: failures after the commit at line 128 are not modelled: reconnecting (line 134), the `SELECT`s (lines 138, 143) or writing `feed.json` (lines 160-161). In the script they exit with status 1 with the ingested rows already committed. `Run` has no outcome that is both failed and committed; it assumes these steps succeed.
- Store.IngestAll: after a fault, the tables holding the partial writes are not described. The only caller, `Run`, discards them with `Rollback`.
