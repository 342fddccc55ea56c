/** The reconciliation store: two tables keyed by primary id, `playlists`
    and `videos`, written with INSERT OR REPLACE (last write wins). The pure
    part says what a sequence of upserts does to the tables; the class Store
    is the open connection that performs them in place. */
module Reconcile {
  import opened Catalog

  datatype PlaylistRow = PlaylistRow(title: string, description: string)
  datatype VideoRow = VideoRow(playlistId: string, title: string, url: string, description: string)

  /** The contents of both tables. */
  datatype Db = Db(playlists: map<string, PlaylistRow>, videos: map<string, VideoRow>)

  const EmptyDb := Db(map[], map[])

  /** The tables of `a` overwritten, row by row, by those of `b`. */
  function Overlay(a: Db, b: Db): Db {
    Db(a.playlists + b.playlists, a.videos + b.videos)
  }

  // ---------------------------------------------------------------------
  // INSERT OR REPLACE, one row after another

  /** The table after upserting the rows of xs in order, each under its key. */
  function Upserts<T, V>(m: map<string, V>, xs: seq<T>, key: T -> string, row: T -> V): map<string, V>
  {
    if xs == [] then m
    else
      var x := xs[|xs| - 1];
      Upserts(m, xs[..|xs| - 1], key, row)[key(x) := row(x)]
  }

  /** Upserts only add keys: the keys afterwards are the old ones and those written. */
  lemma {:induction false} UpsertsKeys<T, V>(m: map<string, V>, xs: seq<T>, key: T -> string, row: T -> V)
    ensures Upserts(m, xs, key, row).Keys == m.Keys + set i | 0 <= i < |xs| :: key(xs[i])
  {
    if xs != [] {
      var init := xs[..|xs| - 1];
      UpsertsKeys(m, init, key, row);
      assert (set i | 0 <= i < |xs| :: key(xs[i])) ==
        (set i | 0 <= i < |init| :: key(init[i])) + {key(xs[|xs| - 1])};
    }
  }

  /** A key that none of the rows carries keeps its old row (or stays absent). */
  lemma {:induction false} UpsertsUntouched<T, V>(m: map<string, V>, xs: seq<T>, key: T -> string, row: T -> V, id: string)
    requires forall i :: 0 <= i < |xs| ==> key(xs[i]) != id
    ensures id in Upserts(m, xs, key, row) <==> id in m
    ensures id in m ==> Upserts(m, xs, key, row)[id] == m[id]
  {
    if xs != [] {
      UpsertsUntouched(m, xs[..|xs| - 1], key, row, id);
    }
  }

  /** Last write wins: the row stored under a key is the row of the last
      element carrying that key. */
  lemma {:induction false} UpsertsLastWins<T, V>(m: map<string, V>, xs: seq<T>, key: T -> string, row: T -> V, k: nat)
    requires k < |xs|
    requires forall j :: k < j < |xs| ==> key(xs[j]) != key(xs[k])
    ensures key(xs[k]) in Upserts(m, xs, key, row)
    ensures Upserts(m, xs, key, row)[key(xs[k])] == row(xs[k])
  {
    if k < |xs| - 1 {
      UpsertsLastWins(m, xs[..|xs| - 1], key, row, k);
    }
  }

  /** Upserting rows into an overlaid table only touches the upper table:
      the lower table's rows take no part in it. */
  lemma {:induction false} UpsertsOverlay<T, V>(lower: map<string, V>, upper: map<string, V>, xs: seq<T>, key: T -> string, row: T -> V)
    ensures Upserts(lower + upper, xs, key, row) == lower + Upserts(upper, xs, key, row)
  {
    if xs != [] {
      var init, x := xs[..|xs| - 1], xs[|xs| - 1];
      UpsertsOverlay(lower, upper, init, key, row);
      var e := Upserts(upper, init, key, row);
      assert (lower + e)[key(x) := row(x)] == lower + e[key(x) := row(x)];
    }
  }

  /** INSERT OR REPLACE of one row: the row under its key becomes the new
      one, every other row is unchanged, and the number of ids grows by at
      most one. */
  lemma UpsertOne<T, V>(m: map<string, V>, x: T, key: T -> string, row: T -> V)
    ensures key(x) in Upserts(m, [x], key, row) && Upserts(m, [x], key, row)[key(x)] == row(x)
    ensures forall other :: other != key(x) ==>
      (other in Upserts(m, [x], key, row) <==> other in m) &&
      (other in m ==> Upserts(m, [x], key, row)[other] == m[other])
    ensures |Upserts(m, [x], key, row)| == if key(x) in m then |m| else |m| + 1
  {
    assert [x][..0] == [];
  }

  // ---------------------------------------------------------------------
  // Ingestion of one playlist and of a worklist

  /** The row written for a playlist resource; a missing description is "". */
  function PlaylistRowOf(p: PlaylistResource): (r: PlaylistRow)
    ensures r.title == p.title
    ensures p.description.None? ==> r.description == ""
    ensures p.description.Some? ==> r.description == p.description.value
  {
    PlaylistRow(p.title, OrEmpty(p.description))
  }

  /** The row written for a playlist item: its canonical URL is derived from
      the video id, a missing description is "". */
  function VideoRowOf(playlistId: string, item: PlaylistItem): (r: VideoRow)
    ensures r.playlistId == playlistId && r.title == item.title
    ensures |r.url| == |WatchPrefix| + |item.videoId|
    ensures r.url[..|WatchPrefix|] == WatchPrefix && r.url[|WatchPrefix|..] == item.videoId
    ensures item.description.None? ==> r.description == ""
    ensures item.description.Some? ==> r.description == item.description.value
  {
    VideoRow(playlistId, item.title, WatchUrl(item.videoId), OrEmpty(item.description))
  }

  function PutPlaylists(m: map<string, PlaylistRow>, found: seq<PlaylistResource>): map<string, PlaylistRow> {
    Upserts(m, found, (p: PlaylistResource) => p.id, PlaylistRowOf)
  }

  function PutVideos(m: map<string, VideoRow>, playlistId: string, items: seq<PlaylistItem>): map<string, VideoRow> {
    Upserts(m, items, (it: PlaylistItem) => it.videoId, (it: PlaylistItem) => VideoRowOf(playlistId, it))
  }

  /** The id under which the items of a playlist are fetched and stored. The
      loop over the lookup reply rebinds the playlist id to each resource's
      id, so it is the id of the last resource found, or the requested id
      when the lookup found nothing. */
  function OwnerId(requested: string, found: seq<PlaylistResource>): (owner: string)
    ensures found == [] ==> owner == requested
    ensures found != [] ==> owner == found[|found| - 1].id
    ensures owner == requested || exists i :: 0 <= i < |found| && found[i].id == owner
  {
    if found == [] then requested else found[|found| - 1].id
  }

  /** One iteration of the ingestion loop for playlist `pid`: upsert the
      playlist resources found, then fetch and upsert its items. */
  function IngestStep(api: Api, db: Db, pid: string): (r: Reply<Db>)
    ensures r.Ok? <==> api.playlistsById(pid).Ok? && api.playlistItems(OwnerOf(api, pid)).Ok?
    ensures api.playlistsById(pid).Fault? ==> r == Fault(api.playlistsById(pid).kind)
    ensures api.playlistsById(pid).Ok? && api.playlistItems(OwnerOf(api, pid)).Fault? ==>
      r == Fault(api.playlistItems(OwnerOf(api, pid)).kind)
    ensures r.Ok? ==>
      (var found := api.playlistsById(pid).value;
       r.value.playlists.Keys == db.playlists.Keys + set i | 0 <= i < |found| :: found[i].id)
    ensures r.Ok? ==>
      (var items := api.playlistItems(OwnerOf(api, pid)).value;
       r.value.videos.Keys == db.videos.Keys + set j | 0 <= j < |items| :: items[j].videoId)
  {
    match api.playlistsById(pid)
    case Fault(k) => Fault(k)
    case Ok(found) =>
      var owner := OwnerId(pid, found);
      match api.playlistItems(owner)
      case Fault(k) => Fault(k)
      case Ok(items) =>
        UpsertsKeys(db.playlists, found, (p: PlaylistResource) => p.id, PlaylistRowOf);
        UpsertsKeys(db.videos, items, (it: PlaylistItem) => it.videoId, (it: PlaylistItem) => VideoRowOf(owner, it));
        Ok(Db(PutPlaylists(db.playlists, found), PutVideos(db.videos, owner, items)))
  }

  /** The ingestion loop over a worklist, stopped by the first fault. */
  function Ingested(api: Api, db: Db, pids: seq<string>): (r: Reply<Db>)
    ensures r.Ok? ==> db.playlists.Keys <= r.value.playlists.Keys && db.videos.Keys <= r.value.videos.Keys
  {
    if pids == [] then Ok(db)
    else
      match Ingested(api, db, pids[..|pids| - 1])
      case Fault(k) => Fault(k)
      case Ok(d) => IngestStep(api, d, pids[|pids| - 1])
  }

  /** The owner id of `pid` under the replies of `api`. */
  function OwnerOf(api: Api, pid: string): string {
    match api.playlistsById(pid)
    case Fault(_) => pid
    case Ok(found) => OwnerId(pid, found)
  }

  /** Whether ingesting `pid` writes a row for video `vid`. */
  predicate Lists(api: Api, pid: string, vid: string) {
    match api.playlistsById(pid)
    case Fault(_) => false
    case Ok(found) =>
      match api.playlistItems(OwnerId(pid, found))
      case Fault(_) => false
      case Ok(items) => exists j :: 0 <= j < |items| && items[j].videoId == vid
  }

  /** Every stored video's URL is the watch URL of its id. */
  ghost predicate UrlsCanonical(db: Db) {
    forall id :: id in db.videos ==> db.videos[id].url == WatchUrl(id)
  }

  /** Every stored video names a stored playlist (the foreign key, which the
      store itself does not enforce). */
  ghost predicate OwnersStored(db: Db) {
    forall id :: id in db.videos ==> db.videos[id].playlistId in db.playlists
  }

  /** One step applied to overlaid tables is the step applied to the upper
      tables, overlaid on the lower ones. */
  lemma IngestStepOverlay(api: Api, a: Db, b: Db, pid: string)
    ensures IngestStep(api, Overlay(a, b), pid).Ok? <==> IngestStep(api, b, pid).Ok?
    ensures IngestStep(api, b, pid).Ok? ==>
      IngestStep(api, Overlay(a, b), pid).value == Overlay(a, IngestStep(api, b, pid).value)
  {
    if IngestStep(api, b, pid).Ok? {
      var found := api.playlistsById(pid).value;
      var owner := OwnerId(pid, found);
      var items := api.playlistItems(owner).value;
      UpsertsOverlay(a.playlists, b.playlists, found, (p: PlaylistResource) => p.id, PlaylistRowOf);
      UpsertsOverlay(a.videos, b.videos, items, (it: PlaylistItem) => it.videoId, (it: PlaylistItem) => VideoRowOf(owner, it));
    }
  }

  /** Whether a run ingests `pids` without a fault is decided by the replies
      alone, and the tables it leaves are the old ones overlaid by what the
      same run writes into empty tables: no row is ever deleted. */
  lemma {:induction false} IngestedOverlay(api: Api, db: Db, pids: seq<string>)
    ensures Ingested(api, db, pids).Ok? <==> Ingested(api, EmptyDb, pids).Ok?
    ensures Ingested(api, db, pids).Ok? ==>
      Ingested(api, db, pids).value == Overlay(db, Ingested(api, EmptyDb, pids).value)
  {
    if pids == [] {
      assert db.playlists + map[] == db.playlists && db.videos + map[] == db.videos;
    } else {
      var init, pid := pids[..|pids| - 1], pids[|pids| - 1];
      IngestedOverlay(api, db, init);
      if Ingested(api, db, init).Ok? {
        IngestStepOverlay(api, db, Ingested(api, EmptyDb, init).value, pid);
      }
    }
  }

  /** Running the ingestion a second time with the same replies changes nothing. */
  lemma IngestedIdempotent(api: Api, db: Db, pids: seq<string>)
    requires Ingested(api, db, pids).Ok?
    ensures Ingested(api, Ingested(api, db, pids).value, pids) == Ingested(api, db, pids)
  {
    var d := Ingested(api, db, pids).value;
    IngestedOverlay(api, db, pids);
    IngestedOverlay(api, d, pids);
    var e := Ingested(api, EmptyDb, pids).value;
    assert (db.playlists + e.playlists) + e.playlists == db.playlists + e.playlists;
    assert (db.videos + e.videos) + e.videos == db.videos + e.videos;
  }

  /** Re-processing one playlist with the same replies leaves the store as it is. */
  lemma IngestStepIdempotent(api: Api, db: Db, pid: string)
    requires IngestStep(api, db, pid).Ok?
    ensures IngestStep(api, IngestStep(api, db, pid).value, pid) == IngestStep(api, db, pid)
  {
    assert [pid][..0] == [];
    assert Ingested(api, db, [pid]) == IngestStep(api, db, pid);
    IngestedIdempotent(api, db, [pid]);
    assert Ingested(api, IngestStep(api, db, pid).value, [pid]) ==
      IngestStep(api, IngestStep(api, db, pid).value, pid);
  }

  /** The watch-URL invariant holds of every store the ingestion produces. */
  lemma {:induction false} IngestedKeepsUrlsCanonical(api: Api, db: Db, pids: seq<string>)
    requires UrlsCanonical(db)
    requires Ingested(api, db, pids).Ok?
    ensures UrlsCanonical(Ingested(api, db, pids).value)
  {
    if pids != [] {
      var init, pid := pids[..|pids| - 1], pids[|pids| - 1];
      IngestedKeepsUrlsCanonical(api, db, init);
      var d := Ingested(api, db, init).value;
      var found := api.playlistsById(pid).value;
      var owner := OwnerId(pid, found);
      var items := api.playlistItems(owner).value;
      PutVideosCanonical(d.videos, owner, items);
    }
  }

  lemma {:induction false} PutVideosCanonical(m: map<string, VideoRow>, owner: string, items: seq<PlaylistItem>)
    requires forall id :: id in m ==> m[id].url == WatchUrl(id)
    ensures forall id :: id in PutVideos(m, owner, items) ==> PutVideos(m, owner, items)[id].url == WatchUrl(id)
  {
    if items != [] {
      PutVideosCanonical(m, owner, items[..|items| - 1]);
    }
  }

  /** A video listed by several playlists ends up owned by the last one
      processed: its row names that playlist's owner id. */
  lemma {:induction false} LastListingWins(api: Api, db: Db, pids: seq<string>, vid: string, k: nat)
    requires Ingested(api, db, pids).Ok?
    requires k < |pids| && Lists(api, pids[k], vid)
    requires forall j :: k < j < |pids| ==> !Lists(api, pids[j], vid)
    ensures vid in Ingested(api, db, pids).value.videos
    ensures Ingested(api, db, pids).value.videos[vid].playlistId == OwnerOf(api, pids[k])
  {
    var init, pid := pids[..|pids| - 1], pids[|pids| - 1];
    var d := Ingested(api, db, init).value;
    var found := api.playlistsById(pid).value;
    var owner := OwnerId(pid, found);
    var items := api.playlistItems(owner).value;
    var vk, vr := (it: PlaylistItem) => it.videoId, (it: PlaylistItem) => VideoRowOf(owner, it);
    if k == |pids| - 1 {
      var j :| 0 <= j < |items| && items[j].videoId == vid;
      var last := LastIndexOf(items, vid, j);
      UpsertsLastWins(d.videos, items, vk, vr, last);
    } else {
      assert !Lists(api, pid, vid);
      LastListingWins(api, db, init, vid, k);
      UpsertsUntouched(d.videos, items, vk, vr, vid);
    }
  }

  /** The position of the last item with video id `vid`, at or after `j`. */
  function LastIndexOf(items: seq<PlaylistItem>, vid: string, j: nat): (last: nat)
    requires j < |items| && items[j].videoId == vid
    ensures j <= last < |items| && items[last].videoId == vid
    ensures forall i :: last < i < |items| ==> items[i].videoId != vid
    decreases |items| - j
  {
    if exists i :: j < i < |items| && items[i].videoId == vid then
      var i :| j < i < |items| && items[i].videoId == vid;
      LastIndexOf(items, vid, i)
    else j
  }

  /** A playlist resource found for any playlist of the worklist has a row
      in the store the ingestion leaves. */
  lemma {:induction false} IngestedStoresFound(api: Api, db: Db, pids: seq<string>, k: nat, id: string)
    requires Ingested(api, db, pids).Ok?
    requires k < |pids| && api.playlistsById(pids[k]).Ok?
    requires exists i :: 0 <= i < |api.playlistsById(pids[k]).value| && api.playlistsById(pids[k]).value[i].id == id
    ensures id in Ingested(api, db, pids).value.playlists
  {
    var init, pid := pids[..|pids| - 1], pids[|pids| - 1];
    var d := Ingested(api, db, init).value;
    var found := api.playlistsById(pid).value;
    UpsertsKeys(d.playlists, found, (p: PlaylistResource) => p.id, PlaylistRowOf);
    if k < |pids| - 1 {
      IngestedStoresFound(api, db, init, k, id);
    } else {
      var i :| 0 <= i < |found| && found[i].id == id;
      assert id in set i | 0 <= i < |found| :: found[i].id;
    }
  }

  /** The videos are stored under the id of the last playlist row the step
      writes: when the lookup finds the playlist, a step keeps every stored
      video's playlist stored. */
  lemma IngestStepKeepsOwnersStored(api: Api, db: Db, pid: string)
    requires OwnersStored(db)
    requires IngestStep(api, db, pid).Ok?
    requires api.playlistsById(pid).value != []
    ensures OwnersStored(IngestStep(api, db, pid).value)
  {
    var found := api.playlistsById(pid).value;
    var owner := OwnerId(pid, found);
    var items := api.playlistItems(owner).value;
    var d := IngestStep(api, db, pid).value;
    UpsertsKeys(db.playlists, found, (p: PlaylistResource) => p.id, PlaylistRowOf);
    assert owner == found[|found| - 1].id;
    assert owner in d.playlists;
    forall id | id in d.videos
      ensures d.videos[id].playlistId in d.playlists
    {
      if exists j :: 0 <= j < |items| && items[j].videoId == id {
        var j :| 0 <= j < |items| && items[j].videoId == id;
        var last := LastIndexOf(items, id, j);
        UpsertsLastWins(db.videos, items, (it: PlaylistItem) => it.videoId, (it: PlaylistItem) => VideoRowOf(owner, it), last);
      } else {
        UpsertsUntouched(db.videos, items, (it: PlaylistItem) => it.videoId, (it: PlaylistItem) => VideoRowOf(owner, it), id);
      }
    }
  }

  /** When the lookup of a playlist finds nothing, its items are still
      stored, under the requested id, with no playlist row to point to. */
  lemma UnfoundPlaylistOrphansItsVideos(api: Api, db: Db, pid: string)
    requires api.playlistsById(pid) == Ok([])
    requires pid !in db.playlists
    requires api.playlistItems(pid).Ok? && api.playlistItems(pid).value != []
    ensures IngestStep(api, db, pid).Ok?
    ensures IngestStep(api, db, pid).value.playlists == db.playlists
    ensures forall j :: 0 <= j < |api.playlistItems(pid).value| ==>
      api.playlistItems(pid).value[j].videoId in IngestStep(api, db, pid).value.videos &&
      IngestStep(api, db, pid).value.videos[api.playlistItems(pid).value[j].videoId].playlistId == pid
    ensures !OwnersStored(IngestStep(api, db, pid).value)
  {
    var items := api.playlistItems(pid).value;
    var d := IngestStep(api, db, pid).value;
    assert d.playlists == db.playlists;
    forall j | 0 <= j < |items|
      ensures items[j].videoId in d.videos && d.videos[items[j].videoId].playlistId == pid
    {
      var last := LastIndexOf(items, items[j].videoId, j);
      UpsertsLastWins(db.videos, items, (it: PlaylistItem) => it.videoId, (it: PlaylistItem) => VideoRowOf(pid, it), last);
    }
    assert d.videos[items[0].videoId].playlistId == pid;
  }

  // ---------------------------------------------------------------------
  // The open connection

  /** The store as the script's connection sees it: the tables with every
      upsert issued so far, and the state made durable by the last commit. */
  class Store {
    var playlists: map<string, PlaylistRow>
    var videos: map<string, VideoRow>
    var committed: Db

    /** A connection opened on a store whose durable contents are `db`. */
    constructor (db: Db)
      ensures playlists == db.playlists && videos == db.videos && committed == db
    {
      playlists, videos, committed := db.playlists, db.videos, db;
    }

    function Tables(): Db
      reads this
    {
      Db(playlists, videos)
    }

    /** No upsert is pending: the tables are what was last committed. */
    predicate Clean()
      reads this
    {
      committed == Tables()
    }

    /** INSERT OR REPLACE INTO playlists. */
    method UpsertPlaylist(id: string, title: string, description: string)
      modifies this
      ensures playlists == old(playlists)[id := PlaylistRow(title, description)]
      ensures forall other :: other != id && other in old(playlists) ==> playlists[other] == old(playlists)[other]
      ensures |playlists| == if id in old(playlists) then |old(playlists)| else |old(playlists)| + 1
      ensures videos == old(videos) && committed == old(committed)
    {
      playlists := playlists[id := PlaylistRow(title, description)];
    }

    /** INSERT OR REPLACE INTO videos. */
    method UpsertVideo(id: string, playlistId: string, title: string, url: string, description: string)
      modifies this
      ensures videos == old(videos)[id := VideoRow(playlistId, title, url, description)]
      ensures forall other :: other != id && other in old(videos) ==> videos[other] == old(videos)[other]
      ensures |videos| == if id in old(videos) then |old(videos)| else |old(videos)| + 1
      ensures playlists == old(playlists) && committed == old(committed)
    {
      videos := videos[id := VideoRow(playlistId, title, url, description)];
    }

    method Commit()
      modifies this
      ensures Clean() && Tables() == old(Tables())
    {
      committed := Tables();
    }

    /** The connection is dropped without a commit: the pending upserts are lost. */
    method Rollback()
      modifies this
      ensures Clean() && committed == old(committed)
    {
      playlists, videos := committed.playlists, committed.videos;
    }

    /** One iteration of the ingestion loop: look the playlist up, upsert
        each resource found, then fetch the items under the (possibly
        rebound) playlist id and upsert one video row per item. A fault
        returns at once, after the playlist upserts already issued. */
    method IngestPlaylist(api: Api, pid: string) returns (fault: Option<FaultKind>)
      modifies this
      ensures committed == old(committed)
      ensures IngestStep(api, old(Tables()), pid).Ok? ==>
        fault == None && Tables() == IngestStep(api, old(Tables()), pid).value
      ensures IngestStep(api, old(Tables()), pid).Fault? ==>
        fault == Some(IngestStep(api, old(Tables()), pid).kind) && videos == old(videos)
      ensures api.playlistsById(pid).Fault? ==> playlists == old(playlists)
      ensures api.playlistsById(pid).Ok? ==> playlists == PutPlaylists(old(playlists), api.playlistsById(pid).value)
    {
      var response := api.playlistsById(pid);
      if response.Fault? {
        return Some(response.kind);
      }
      var found := response.value;
      var playlistId := pid;
      var i := 0;
      while i < |found|
        invariant 0 <= i <= |found|
        invariant playlists == PutPlaylists(old(playlists), found[..i])
        invariant videos == old(videos) && committed == old(committed)
        invariant playlistId == OwnerId(pid, found[..i])
      {
        var p := found[i];
        assert found[..i + 1][..i] == found[..i];
        playlistId := p.id;
        UpsertPlaylist(playlistId, p.title, OrEmpty(p.description));
        i := i + 1;
      }
      assert found[..i] == found;
      var items := api.playlistItems(playlistId);
      if items.Fault? {
        return Some(items.kind);
      }
      var j := 0;
      while j < |items.value|
        invariant 0 <= j <= |items.value|
        invariant videos == PutVideos(old(videos), playlistId, items.value[..j])
        invariant playlists == PutPlaylists(old(playlists), found) && committed == old(committed)
      {
        var item := items.value[j];
        assert items.value[..j + 1][..j] == items.value[..j];
        UpsertVideo(item.videoId, playlistId, item.title, WatchUrl(item.videoId), OrEmpty(item.description));
        j := j + 1;
      }
      assert items.value[..j] == items.value;
      return None;
    }

    /** The ingestion loop over a worklist, stopped by the first fault. */
    method IngestAll(api: Api, pids: seq<string>) returns (fault: Option<FaultKind>)
      modifies this
      ensures committed == old(committed)
      ensures Ingested(api, old(Tables()), pids).Ok? ==>
        fault == None && Tables() == Ingested(api, old(Tables()), pids).value
      ensures Ingested(api, old(Tables()), pids).Fault? ==>
        fault == Some(Ingested(api, old(Tables()), pids).kind)
    {
      var i := 0;
      while i < |pids|
        invariant 0 <= i <= |pids|
        invariant committed == old(committed)
        invariant Ingested(api, old(Tables()), pids[..i]) == Ok(Tables())
      {
        assert pids[..i + 1][..i] == pids[..i];
        fault := IngestPlaylist(api, pids[i]);
        if fault.Some? {
          IngestedFaultPrefix(api, old(Tables()), pids, i + 1);
          return;
        }
        i := i + 1;
      }
      assert pids[..i] == pids;
      return None;
    }
  }

  /** A fault while ingesting a prefix of the worklist is the fault of the whole run. */
  lemma {:induction false} IngestedFaultPrefix(api: Api, db: Db, pids: seq<string>, k: nat)
    requires k <= |pids|
    requires Ingested(api, db, pids[..k]).Fault?
    ensures Ingested(api, db, pids) == Ingested(api, db, pids[..k])
    decreases |pids| - k
  {
    if k < |pids| {
      assert pids[..k + 1][..k] == pids[..k];
      IngestedFaultPrefix(api, db, pids, k + 1);
    } else {
      assert pids[..k] == pids;
    }
  }
}
