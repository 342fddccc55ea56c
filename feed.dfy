/** Feed materialisation: one entry per stored playlist, tagged
    "youtube_playlist", embedding the (title, url, description) projections
    of the videos stored under that playlist. The store returns rows in no
    guaranteed order, so the feed is specified up to order: the entries as a
    set of playlist ids, the videos of an entry as a multiset. */
module Feed {
  import opened Catalog
  import opened Reconcile

  datatype VideoView = VideoView(title: string, url: string, description: string)

  datatype FeedEntry = FeedEntry(
    title: string, id: string, description: string, kind: string, videos: seq<VideoView>)

  const PlaylistKind: string := "youtube_playlist"

  /** The columns `SELECT title, url, description FROM videos` returns for a row. */
  function ViewOf(row: VideoRow): VideoView {
    VideoView(row.title, row.url, row.description)
  }

  /** What the row under `id` contributes to playlist `playlistId`'s videos. */
  function ViewAt(videos: map<string, VideoRow>, id: string, playlistId: string): multiset<VideoView> {
    if id in videos && videos[id].playlistId == playlistId then multiset{ViewOf(videos[id])} else multiset{}
  }

  /** The views of the rows among `ids` that belong to playlist `playlistId`. */
  ghost function ViewsAmong(videos: map<string, VideoRow>, ids: set<string>, playlistId: string): multiset<VideoView>
    decreases ids
  {
    if ids == {} then multiset{}
    else
      var id :| id in ids;
      ViewAt(videos, id, playlistId) + ViewsAmong(videos, ids - {id}, playlistId)
  }

  /** `SELECT title, url, description FROM videos WHERE playlist_id = ?`, as a multiset. */
  ghost function ViewsOf(videos: map<string, VideoRow>, playlistId: string): multiset<VideoView> {
    ViewsAmong(videos, videos.Keys, playlistId)
  }

  /** Any row may be taken out first: the result does not depend on the
      order in which the rows are visited. */
  lemma {:induction false} ViewsAmongPick(videos: map<string, VideoRow>, ids: set<string>, id: string, playlistId: string)
    requires id in ids
    ensures ViewsAmong(videos, ids, playlistId) ==
      ViewAt(videos, id, playlistId) + ViewsAmong(videos, ids - {id}, playlistId)
    decreases ids
  {
    var y :| y in ids && ViewsAmong(videos, ids, playlistId) ==
      ViewAt(videos, y, playlistId) + ViewsAmong(videos, ids - {y}, playlistId);
    if y != id {
      ViewsAmongPick(videos, ids - {y}, id, playlistId);
      ViewsAmongPick(videos, ids - {id}, y, playlistId);
      assert ids - {y} - {id} == ids - {id} - {y};
    }
  }

  /** The feed entry for playlist `id` shows the stored row and exactly the
      views of the videos stored under it. */
  ghost predicate EntryOf(e: FeedEntry, db: Db) {
    && e.id in db.playlists
    && e.kind == PlaylistKind
    && e.title == db.playlists[e.id].title
    && e.description == db.playlists[e.id].description
    && multiset(e.videos) == ViewsOf(db.videos, e.id)
  }

  function FeedIds(feed: seq<FeedEntry>): set<string> {
    set i | 0 <= i < |feed| :: feed[i].id
  }

  predicate DistinctIds(feed: seq<FeedEntry>) {
    forall i, j :: 0 <= i < j < |feed| ==> feed[i].id != feed[j].id
  }

  /** `feed` is a materialisation of `db`: one entry per playlist row, each
      built from its row and its videos. */
  ghost predicate IsFeedOf(feed: seq<FeedEntry>, db: Db) {
    && FeedIds(feed) == db.playlists.Keys
    && DistinctIds(feed)
    && forall i :: 0 <= i < |feed| ==> EntryOf(feed[i], db)
  }

  lemma FeedIdsAppend(feed: seq<FeedEntry>, e: FeedEntry)
    ensures FeedIds(feed + [e]) == FeedIds(feed) + {e.id}
  {
    var s := feed + [e];
    forall id | id in FeedIds(s) ensures id in FeedIds(feed) + {e.id} {
      var i :| 0 <= i < |s| && s[i].id == id;
      if i < |feed| { assert feed[i] == s[i]; }
    }
    forall id | id in FeedIds(feed) ensures id in FeedIds(s) {
      var i :| 0 <= i < |feed| && feed[i].id == id;
      assert s[i] == feed[i];
    }
    assert s[|feed|] == e;
  }

  /** A feed has exactly as many entries as the store has playlist rows. */
  lemma OneEntryPerPlaylist(feed: seq<FeedEntry>, db: Db)
    requires IsFeedOf(feed, db)
    ensures |feed| == |db.playlists|
  {
    DistinctIdsCount(feed);
    assert db.playlists.Keys == FeedIds(feed);
  }

  lemma {:induction false} DistinctIdsCount(feed: seq<FeedEntry>)
    requires DistinctIds(feed)
    ensures |FeedIds(feed)| == |feed|
  {
    if feed != [] {
      var init := feed[..|feed| - 1];
      DistinctIdsCount(init);
      assert init + [feed[|feed| - 1]] == feed;
      FeedIdsAppend(init, feed[|feed| - 1]);
      assert feed[|feed| - 1].id !in FeedIds(init);
    }
  }

  /** The feed is determined by the store up to order: two materialisations
      of one store have the same entries, each with the same videos. */
  lemma FeedUniqueUpToOrder(f1: seq<FeedEntry>, f2: seq<FeedEntry>, db: Db, i: nat)
    requires IsFeedOf(f1, db) && IsFeedOf(f2, db)
    requires i < |f1|
    ensures exists j :: (0 <= j < |f2| && f2[j].id == f1[i].id && f2[j].title == f1[i].title &&
      f2[j].description == f1[i].description && multiset(f2[j].videos) == multiset(f1[i].videos))
  {
    assert f1[i].id in FeedIds(f1);
    var j :| 0 <= j < |f2| && f2[j].id == f1[i].id;
    assert EntryOf(f1[i], db) && EntryOf(f2[j], db);
  }

  /** The views of a playlist are exactly the projections of the video rows
      stored under it: each such row's view is among them, and each of them
      is the view of such a row. */
  lemma {:induction false} ViewsAmongMembers(videos: map<string, VideoRow>, ids: set<string>, playlistId: string, v: VideoView)
    ensures v in ViewsAmong(videos, ids, playlistId) <==>
      exists id :: id in ids && id in videos && videos[id].playlistId == playlistId && ViewOf(videos[id]) == v
    decreases ids
  {
    if ids != {} {
      var id :| id in ids;
      ViewsAmongPick(videos, ids, id, playlistId);
      ViewsAmongMembers(videos, ids - {id}, playlistId, v);
    }
  }

  /** A video row stored under a playlist appears in that playlist's entry,
      and every view in an entry comes from a row stored under it. */
  lemma EntryShowsItsVideos(e: FeedEntry, db: Db, v: VideoView)
    requires EntryOf(e, db)
    ensures v in e.videos <==>
      exists id :: id in db.videos && db.videos[id].playlistId == e.id && ViewOf(db.videos[id]) == v
  {
    assert v in e.videos <==> v in multiset(e.videos);
    ViewsAmongMembers(db.videos, db.videos.Keys, e.id, v);
  }

  /** The video query for one playlist: a scan of the video table. */
  method SelectVideos(store: Store, playlistId: string) returns (views: seq<VideoView>)
    ensures multiset(views) == ViewsOf(store.videos, playlistId)
  {
    views := [];
    var remaining := store.videos.Keys;
    while remaining != {}
      invariant remaining <= store.videos.Keys
      invariant multiset(views) + ViewsAmong(store.videos, remaining, playlistId) ==
        ViewsOf(store.videos, playlistId)
      decreases remaining
    {
      var id :| id in remaining;
      ViewsAmongPick(store.videos, remaining, id, playlistId);
      var row := store.videos[id];
      if row.playlistId == playlistId {
        views := views + [ViewOf(row)];
      }
      remaining := remaining - {id};
    }
  }

  /** The feed loop: for each playlist row, one entry with its videos. */
  method Materialize(store: Store) returns (feed: seq<FeedEntry>)
    ensures IsFeedOf(feed, store.Tables())
  {
    feed := [];
    var remaining := store.playlists.Keys;
    while remaining != {}
      invariant remaining <= store.playlists.Keys
      invariant FeedIds(feed) == store.playlists.Keys - remaining
      invariant DistinctIds(feed)
      invariant forall i :: 0 <= i < |feed| ==> EntryOf(feed[i], store.Tables())
      decreases remaining
    {
      var playlistId :| playlistId in remaining;
      var row := store.playlists[playlistId];
      var videos := SelectVideos(store, playlistId);
      ghost var before := feed;
      feed := feed + [FeedEntry(row.title, playlistId, row.description, PlaylistKind, videos)];
      FeedIdsAppend(before, feed[|before|]);
      remaining := remaining - {playlistId};
    }
  }
}
