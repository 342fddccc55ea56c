/** Resolution of the configured channel references into channel ids: a
    reference that starts with '@' is a handle and is looked up with a
    one-result channel search; any other reference is taken as a channel id. */
module Resolver {
  import opened Catalog

  predicate IsHandle(ref: string) {
    |ref| > 0 && ref[0] == '@'
  }

  /** What one reference contributes to the resolved list: the first hit of
      the search for a handle (nothing on a miss), the reference itself
      otherwise. */
  function ResolveOne(api: Api, ref: string): (r: Reply<seq<string>>)
    ensures r.Fault? <==> IsHandle(ref) && api.searchChannels(ref).Fault?
    ensures IsHandle(ref) && api.searchChannels(ref).Fault? ==> r == Fault(api.searchChannels(ref).kind)
    ensures r == Ok([]) <==> IsHandle(ref) && api.searchChannels(ref) == Ok([])
    ensures r.Ok? ==> |r.value| <= 1
    ensures !IsHandle(ref) ==> r == Ok([ref])
    ensures IsHandle(ref) && r.Ok? && r.value != [] ==> r.value[0] == api.searchChannels(ref).value[0]
  {
    if IsHandle(ref) then
      match api.searchChannels(ref)
      case Fault(k) => Fault(k)
      case Ok(hits) => if |hits| > 0 then Ok([hits[0]]) else Ok([])
    else Ok([ref])
  }

  /** The resolved channel ids of a list of references, in input order. */
  function Resolved(api: Api, refs: seq<string>): Reply<seq<string>> {
    Gather((ref: string) => ResolveOne(api, ref), refs)
  }

  /** The resolution loop: each reference in turn, appending to `channelIds`. */
  method ResolveChannels(api: Api, refs: seq<string>) returns (r: Reply<seq<string>>)
    ensures r == Resolved(api, refs)
  {
    var channelIds: seq<string> := [];
    var i := 0;
    while i < |refs|
      invariant 0 <= i <= |refs|
      invariant Resolved(api, refs[..i]) == Ok(channelIds)
    {
      var ref := refs[i];
      assert refs[..i + 1][..i] == refs[..i];
      assert Resolved(api, refs[..i + 1]) == Concat(Resolved(api, refs[..i]), ResolveOne(api, ref));
      if IsHandle(ref) {
        var response := api.searchChannels(ref);
        if response.Fault? {
          GatherFaultPrefix((ref: string) => ResolveOne(api, ref), refs, i + 1);
          return Fault(response.kind);
        }
        if |response.value| > 0 {
          channelIds := channelIds + [response.value[0]];
        } else {
          // the handle is reported as unresolved and skipped
          assert channelIds + [] == channelIds;
        }
      } else {
        channelIds := channelIds + [ref];
      }
      i := i + 1;
    }
    assert refs[..i] == refs;
    return Ok(channelIds);
  }

  /** A single reference: a handle becomes its first search hit or is
      dropped on a miss; any other reference is kept literally. */
  lemma ResolvedSingle(api: Api, ref: string)
    ensures !IsHandle(ref) ==> Resolved(api, [ref]) == Ok([ref])
    ensures IsHandle(ref) && api.searchChannels(ref).Fault? ==>
      Resolved(api, [ref]) == Fault(api.searchChannels(ref).kind)
    ensures IsHandle(ref) && api.searchChannels(ref) == Ok([]) ==> Resolved(api, [ref]) == Ok([])
    ensures IsHandle(ref) && api.searchChannels(ref).Ok? && |api.searchChannels(ref).value| > 0 ==>
      Resolved(api, [ref]) == Ok([api.searchChannels(ref).value[0]])
  {
    GatherSingle((ref: string) => ResolveOne(api, ref), ref);
  }

  /** Resolution works reference by reference: the ids resolved from a
      concatenation are those of the first part followed by those of the
      second, and a fault in the first part hides the second. */
  lemma ResolvedAppend(api: Api, a: seq<string>, b: seq<string>)
    ensures Resolved(api, a + b) == Concat(Resolved(api, a), Resolved(api, b))
  {
    GatherAppend((ref: string) => ResolveOne(api, ref), a, b);
  }

  /** Every reference yields at most one id, so the resolved list is never
      longer than the input; it is exactly as long when every handle hits. */
  lemma {:induction false} ResolvedNoLonger(api: Api, refs: seq<string>)
    ensures Resolved(api, refs).Ok? ==> |Resolved(api, refs).value| <= |refs|
    ensures Resolved(api, refs).Ok? &&
      (forall i :: 0 <= i < |refs| && IsHandle(refs[i]) ==> api.searchChannels(refs[i]) != Ok([]))
      ==> |Resolved(api, refs).value| == |refs|
  {
    if refs != [] {
      var init := refs[..|refs| - 1];
      ResolvedNoLonger(api, init);
      assert forall i :: 0 <= i < |init| ==> init[i] == refs[i];
    }
  }

  /** A list without handles is passed through unchanged and needs no call. */
  lemma {:induction false} ResolvedLiterals(api: Api, refs: seq<string>)
    requires forall i :: 0 <= i < |refs| ==> !IsHandle(refs[i])
    ensures Resolved(api, refs) == Ok(refs)
  {
    if refs != [] {
      var init := refs[..|refs| - 1];
      ResolvedLiterals(api, init);
      assert init + [refs[|refs| - 1]] == refs;
    }
  }

  /** A handle with no search hit is skipped without stopping the run: the
      references after it are still resolved. */
  lemma MissIsSkipped(api: Api, before: seq<string>, handle: string, after: seq<string>)
    requires IsHandle(handle) && api.searchChannels(handle) == Ok([])
    ensures Resolved(api, before + [handle] + after) == Concat(Resolved(api, before), Resolved(api, after))
  {
    ResolvedAppend(api, before + [handle], after);
    ResolvedAppend(api, before, [handle]);
    ResolvedSingle(api, handle);
    var r := Resolved(api, before);
    if r.Ok? {
      assert r.value + [] == r.value;
    }
  }
}
