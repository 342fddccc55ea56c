/** The remote video catalog as the ingestion script sees it. Every remote call
    (search, playlist listing, playlist lookup, playlist items) is a parameter
    of the model: a total function from its query to a Reply, which is either
    the first page of results or the fault the call raised. */
module Catalog {

  datatype Option<+T> = None | Some(value: T)

  /** The three classes of failure the script tells apart in its diagnostics.
      Only the remote calls are parameters of the model, so a fault of any
      class reaches it as the reply of one of them; in the script a store
      error is raised by the store, never by a remote call, and StoreFault
      is merely how the model represents that class. */
  datatype FaultKind = HttpFault | StoreFault | UnexpectedFault

  /** The outcome of one remote call: its payload, or the fault that aborts
      the run (of any of the three classes, see FaultKind). */
  datatype Reply<+T> = Ok(value: T) | Fault(kind: FaultKind)

  /** One playlist resource of a playlists().list(id=...) reply. */
  datatype PlaylistResource = PlaylistResource(id: string, title: string, description: Option<string>)

  /** One entry of a playlistItems().list(playlistId=...) reply. */
  datatype PlaylistItem = PlaylistItem(videoId: string, title: string, description: Option<string>)

  /** The four remote calls, each reduced to the fields the script reads. */
  datatype Api = Api(
    // search().list(q = handle, type = "channel", maxResults = 1): channel ids of the hits
    searchChannels: string -> Reply<seq<string>>,
    // playlists().list(channelId = ..., maxResults = 50): ids of the first page
    channelPlaylists: string -> Reply<seq<string>>,
    // playlists().list(id = ...): the matching playlist resources
    playlistsById: string -> Reply<seq<PlaylistResource>>,
    // playlistItems().list(playlistId = ..., maxResults = 50): the first page of items
    playlistItems: string -> Reply<seq<PlaylistItem>>)

  const WatchPrefix: string := "https://www.youtube.com/watch?v="

  /** The canonical watch URL of a video. */
  function WatchUrl(videoId: string): (url: string)
    ensures |url| == |WatchPrefix| + |videoId|
    ensures url[..|WatchPrefix|] == WatchPrefix && url[|WatchPrefix|..] == videoId
  {
    WatchPrefix + videoId
  }

  /** A snippet's optional description, read with `.get("description", "")`. */
  function OrEmpty(description: Option<string>): (s: string)
    ensures description.None? ==> s == ""
    ensures description.Some? ==> s == description.value
  {
    match description
    case None => ""
    case Some(d) => d
  }

  /** Sequencing of two calls that each yield a list: the first fault wins,
      otherwise the lists are concatenated in order. */
  function Concat<T>(a: Reply<seq<T>>, b: Reply<seq<T>>): (r: Reply<seq<T>>)
    ensures r.Ok? <==> a.Ok? && b.Ok?
    ensures r.Ok? ==> r.value == a.value + b.value
    ensures a.Fault? ==> r == a
    ensures a.Ok? && b.Fault? ==> r == b
  {
    match a
    case Fault(k) => Fault(k)
    case Ok(x) =>
      match b
      case Fault(k) => Fault(k)
      case Ok(y) => Ok(x + y)
  }

  /** Calls f on each element of xs, in order, appending what each call
      yields; the first fault ends the walk. */
  function Gather<X, Y>(f: X -> Reply<seq<Y>>, xs: seq<X>): Reply<seq<Y>>
  {
    if xs == [] then Ok([])
    else Concat(Gather(f, xs[..|xs| - 1]), f(xs[|xs| - 1]))
  }

  /** Gathering over one element is that element's call. */
  lemma GatherSingle<X, Y>(f: X -> Reply<seq<Y>>, x: X)
    ensures Gather(f, [x]) == f(x)
  {
    assert [x][..0] == [];
    if f(x).Ok? {
      assert [] + f(x).value == f(x).value;
    }
  }

  /** Gathering distributes over concatenation of the inputs: the results
      keep the order of the inputs. */
  lemma {:induction false} GatherAppend<X, Y>(f: X -> Reply<seq<Y>>, xs: seq<X>, ys: seq<X>)
    ensures Gather(f, xs + ys) == Concat(Gather(f, xs), Gather(f, ys))
  {
    if ys == [] {
      assert xs + ys == xs;
      var g := Gather(f, xs);
      if g.Ok? {
        assert g.value + [] == g.value;
      }
    } else {
      var zs := ys[..|ys| - 1];
      var last := ys[|ys| - 1];
      assert (xs + ys)[..|xs + ys| - 1] == xs + zs;
      assert (xs + ys)[|xs + ys| - 1] == last;
      GatherAppend(f, xs, zs);
      var a, b, c := Gather(f, xs), Gather(f, zs), f(last);
      if a.Ok? && b.Ok? && c.Ok? {
        assert (a.value + b.value) + c.value == a.value + (b.value + c.value);
      }
    }
  }

  /** Once a prefix of the walk has faulted, the whole walk reports that fault. */
  lemma GatherFaultPrefix<X, Y>(f: X -> Reply<seq<Y>>, xs: seq<X>, k: nat)
    requires k <= |xs|
    requires Gather(f, xs[..k]).Fault?
    ensures Gather(f, xs) == Gather(f, xs[..k])
  {
    assert xs == xs[..k] + xs[k..];
    GatherAppend(f, xs[..k], xs[k..]);
  }
}
