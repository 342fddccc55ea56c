/** Expansion of channels into playlists: the first page of each resolved
    channel's playlists is appended, in channel order, after the playlist ids
    named explicitly in the input. Nothing is de-duplicated. */
module Expander {
  import opened Catalog

  /** The playlist ids discovered for the channels, channel after channel. */
  function Discovered(api: Api, channelIds: seq<string>): Reply<seq<string>> {
    Gather(api.channelPlaylists, channelIds)
  }

  /** The list of playlist ids to ingest: the explicit ones, then the discovered ones. */
  function Worklist(api: Api, playlistIds: seq<string>, channelIds: seq<string>): Reply<seq<string>> {
    Concat(Ok(playlistIds), Discovered(api, channelIds))
  }

  /** The expansion loop, appending each listed playlist id to `playlistIds`. */
  method ExpandPlaylists(api: Api, explicitIds: seq<string>, channelIds: seq<string>)
    returns (r: Reply<seq<string>>)
    ensures r == Worklist(api, explicitIds, channelIds)
  {
    var playlistIds := explicitIds;
    var i := 0;
    assert channelIds[..0] == [] && explicitIds + [] == explicitIds;
    while i < |channelIds|
      invariant 0 <= i <= |channelIds|
      invariant Worklist(api, explicitIds, channelIds[..i]) == Ok(playlistIds)
    {
      var channelId := channelIds[i];
      assert channelIds[..i + 1][..i] == channelIds[..i];
      assert Discovered(api, channelIds[..i + 1]) ==
        Concat(Discovered(api, channelIds[..i]), api.channelPlaylists(channelId));
      var response := api.channelPlaylists(channelId);
      if response.Fault? {
        GatherFaultPrefix(api.channelPlaylists, channelIds, i + 1);
        return Fault(response.kind);
      }
      ghost var before := playlistIds;
      var j := 0;
      while j < |response.value|
        invariant 0 <= j <= |response.value|
        invariant playlistIds == before + response.value[..j]
      {
        playlistIds := playlistIds + [response.value[j]];
        j := j + 1;
      }
      assert response.value[..j] == response.value;
      assert explicitIds + (Discovered(api, channelIds[..i]).value + response.value) == playlistIds;
      i := i + 1;
    }
    assert channelIds[..i] == channelIds;
    return Ok(playlistIds);
  }

  /** The explicit playlist ids stay a prefix of the worklist, in their order;
      after them come exactly the discovered ids. */
  lemma ExplicitIdsFirst(api: Api, playlistIds: seq<string>, channelIds: seq<string>)
    ensures Worklist(api, playlistIds, channelIds).Ok? <==> Discovered(api, channelIds).Ok?
    ensures Worklist(api, playlistIds, channelIds).Ok? ==>
      var w := Worklist(api, playlistIds, channelIds).value;
      |playlistIds| <= |w| && w[..|playlistIds|] == playlistIds &&
      w[|playlistIds|..] == Discovered(api, channelIds).value
  {
  }

  /** Discovery keeps channel order and every listed id: the ids discovered
      for a concatenation of channel lists are those of the first list
      followed by those of the second, and one channel contributes exactly
      its listing. */
  lemma DiscoveredInChannelOrder(api: Api, a: seq<string>, b: seq<string>, c: string)
    ensures Discovered(api, a + b) == Concat(Discovered(api, a), Discovered(api, b))
    ensures Discovered(api, [c]) == api.channelPlaylists(c)
  {
    GatherAppend(api.channelPlaylists, a, b);
    GatherSingle(api.channelPlaylists, c);
  }

  /** Each discovered id is appended even if it is already in the worklist:
      the worklist is as long as the explicit ids plus every listing. */
  lemma {:induction false} NoDeduplication(api: Api, playlistIds: seq<string>, channelIds: seq<string>)
    requires forall i :: 0 <= i < |channelIds| ==> api.channelPlaylists(channelIds[i]).Ok?
    ensures Worklist(api, playlistIds, channelIds).Ok?
    ensures |Worklist(api, playlistIds, channelIds).value| == |playlistIds| + ListedCount(api, channelIds)
  {
    if channelIds != [] {
      var init := channelIds[..|channelIds| - 1];
      NoDeduplication(api, playlistIds, init);
    }
  }

  /** The number of ids the listings of the channels return, all counted. */
  function ListedCount(api: Api, channelIds: seq<string>): nat
    requires forall i :: 0 <= i < |channelIds| ==> api.channelPlaylists(channelIds[i]).Ok?
  {
    if channelIds == [] then 0
    else
      ListedCount(api, channelIds[..|channelIds| - 1]) +
      |api.channelPlaylists(channelIds[|channelIds| - 1]).value|
  }
}
