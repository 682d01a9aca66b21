/** Any number of selections after a check (controller/channel_upstream_update.go): how long the cache stays right. */
module UpstreamRuns {
  import opened Base
  import opened Text
  import opened ModelNames
  import opened UpstreamModels

  /** One request of an administrator. */
  datatype Request = Request(add: seq<string>, ignore: seq<string>, remove: seq<string>, now: int)

  function SelectionOf(row: Row, r: Request): (s: Selection) {
    Select(row, r.add, r.ignore, r.remove)
  }

  function After(row: Row, requests: seq<Request>): (r: Row) {
    if requests == [] then row
    else
      var before, last := After(row, requests[..|requests| - 1]), requests[|requests| - 1];
      Apply(before, SelectionOf(before, last), last.now)
  }

  /** The cache equals a new detection after every one of the requests. */
  ghost predicate StaysFresh(row: Row, requests: seq<Request>, upstream: seq<string>, mapping: map<string, string>,
                             matcher: Matcher)
  {
    && Fresh(After(row, requests), upstream, mapping, matcher)
    && (requests == [] || StaysFresh(row, requests[..|requests| - 1], upstream, mapping, matcher))
  }

  /** No request adds a pending name with a comma. */
  predicate AddsNoComma(row: Row, requests: seq<Request>) {
    requests == [] ||
    var before, last := requests[..|requests| - 1], requests[|requests| - 1];
    AddsNoComma(row, before) && FreeOf(SelectionOf(After(row, before), last).add, ',')
  }

  /** What a fresh row has pending comes from upstream, so its selections are as plain as the upstream names. */
  lemma SelectionPlain(row: Row, upstream: seq<string>, mapping: map<string, string>, matcher: Matcher, r: Request)
    requires Fresh(row, upstream, mapping, matcher)
    requires forall x :: x in Normalize(upstream) ==> !IsRegex(x)
    ensures PlainSelection(SelectionOf(row, r))
  {
    DetectMembers(GetModels(row.models), upstream, row.ignored, mapping, matcher);
    NormalizeNormal(row.detected);
    IntersectMembers(r.add, row.detected);
    IntersectMembers(r.ignore, row.detected);
    var s := SelectionOf(row, r);
    assert forall x :: x in s.add + s.ignore <==> x in s.add || x in s.ignore;
  }

  /**
    From a fresh row and plain upstream names, any sequence of selections: the cache equals a new detection after every
    one of them exactly when none adds a name with a comma.
   */
  lemma {:induction false} SelectionsKeepFresh(row: Row, requests: seq<Request>, upstream: seq<string>,
                                               mapping: map<string, string>, matcher: Matcher)
    requires Fresh(row, upstream, mapping, matcher)
    requires forall x :: x in Normalize(upstream) ==> !IsRegex(x)
    ensures StaysFresh(row, requests, upstream, mapping, matcher) <==> AddsNoComma(row, requests)
  {
    if requests != [] {
      var before, last := requests[..|requests| - 1], requests[|requests| - 1];
      SelectionsKeepFresh(row, before, upstream, mapping, matcher);
      if StaysFresh(row, before, upstream, mapping, matcher) {
        var mid := After(row, before);
        assert Fresh(mid, upstream, mapping, matcher);
        SelectionPlain(mid, upstream, mapping, matcher, last);
        PlainCacheMatchesDetection(mid, upstream, mapping, matcher, last.add, last.ignore, last.remove, last.now);
      }
    }
  }

  /** The same after a check that stored what it detected. */
  lemma CheckThenSelections(row: Row, requests: seq<Request>, upstream: seq<string>, mapping: map<string, string>,
                            matcher: Matcher, now: int)
    requires forall x :: x in Normalize(upstream) ==> !IsRegex(x)
    ensures var checked := Check(row, Some(upstream), mapping, matcher, true, 0, false, now).row;
            StaysFresh(checked, requests, upstream, mapping, matcher) <==> AddsNoComma(checked, requests)
  {
    CheckIsFresh(row, upstream, mapping, matcher, now);
    SelectionsKeepFresh(Check(row, Some(upstream), mapping, matcher, true, 0, false, now).row, requests, upstream,
                        mapping, matcher);
  }
}
