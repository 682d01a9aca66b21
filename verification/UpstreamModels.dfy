/**
  Upstream model synchronisation (controller/channel_upstream_update.go): detecting what a channel should add and
  remove, and applying an administrator's selection while keeping the remaining lists as a cache.
 */
module UpstreamModels {
  import opened Base
  import opened Text
  import opened ModelNames

  /** regexp.MatchString(pattern, name) without an error; which patterns match what is left open. */
  type Matcher = (string, string) -> bool

  const REGEX_PREFIX := "regex:"

  predicate IsRegex(entry: string) {
    REGEX_PREFIX <= entry
  }

  /** One entry of the ignore list against one model name. */
  predicate Ignores(entry: string, name: string, matcher: Matcher) {
    if IsRegex(entry) then matcher(TrimSpace(entry[|REGEX_PREFIX|..]), name) else entry == name
  }

  predicate IgnoredBy(entries: seq<string>, name: string, matcher: Matcher) {
    exists k :: 0 <= k < |entries| && Ignores(entries[k], name, matcher)
  }

  lemma IgnoredMember(entries: seq<string>, entry: string, name: string, matcher: Matcher)
    ensures entry in entries && Ignores(entry, name, matcher) ==> IgnoredBy(entries, name, matcher)
  {
  }

  datatype Pending = Pending(add: seq<string>, remove: seq<string>)

  /** An upstream model is wanted when neither a local model nor a redirect target covers it and nothing ignores it. */
  function AddWanted(local: seq<string>, ignored: seq<string>, mapping: map<string, string>, matcher: Matcher)
    : (p: string -> bool)
  {
    (x: string) => x !in local && x !in mapping.Values && !IgnoredBy(ignored, x, matcher)
  }

  /** A local model goes when upstream lacks it, unless it is the source of a redirect. */
  function RemoveWanted(upstream: seq<string>, mapping: map<string, string>): (p: string -> bool) {
    (x: string) => x !in mapping && x !in upstream
  }

  /** collectPendingUpstreamModelChangesFromModels. */
  function Detect(local: seq<string>, upstream: seq<string>, ignored: seq<string>, mapping: map<string, string>,
                  matcher: Matcher): (r: Pending)
  {
    var l, u := Normalize(local), Normalize(upstream);
    Pending(Normalize(Filter(u, AddWanted(l, Normalize(ignored), mapping, matcher))),
            Normalize(Filter(l, RemoveWanted(u, mapping))))
  }

  /** channel.GetModels: the models column split at commas. */
  function GetModels(models: string): (r: seq<string>) {
    if models == "" then [] else Split(TrimChar(models, ','), ',')
  }

  /** The columns of a channel that synchronisation reads and writes. */
  datatype Row = Row(models: string, ignored: seq<string>, detected: seq<string>, removed: seq<string>, lastCheck: int)

  /** The part of a selection that names pending changes; add wins over remove. */
  datatype Selection = Selection(add: seq<string>, ignore: seq<string>, remove: seq<string>)

  function Select(row: Row, add: seq<string>, ignore: seq<string>, remove: seq<string>): (s: Selection) {
    var chosen := Intersect(add, Normalize(row.detected));
    Selection(chosen, Intersect(ignore, Normalize(row.detected)),
              Subtract(Intersect(remove, Normalize(row.removed)), chosen))
  }

  function NextModels(row: Row, s: Selection): (r: seq<string>) {
    ApplySelected(Normalize(GetModels(row.models)), s.add, s.remove)
  }

  predicate Changes(row: Row, s: Selection) {
    Normalize(GetModels(row.models)) != NextModels(row, s)
  }

  /** The models column is written only when the list changed. */
  function NextColumn(row: Row, s: Selection): (column: string) {
    if Changes(row, s) then Join(NextModels(row, s), ',') else row.models
  }

  function NextIgnored(row: Row, s: Selection): (r: seq<string>) {
    var merged := Merge(row.ignored, s.ignore);
    if |s.add| > 0 then Subtract(merged, s.add) else merged
  }

  function NextDetected(row: Row, s: Selection): (r: seq<string>) {
    Subtract(Normalize(row.detected), s.add + s.ignore)
  }

  function NextRemoved(row: Row, s: Selection): (r: seq<string>) {
    Subtract(Normalize(row.removed), s.remove)
  }

  /** applyChannelUpstreamModelUpdates on the stored row. */
  function Apply(row: Row, s: Selection, now: int): (r: Row) {
    Row(NextColumn(row, s),
        NextIgnored(row, s),
        NextDetected(row, s),
        NextRemoved(row, s),
        now)
  }

  /** The cached lists are what a detection against this upstream list would find now. */
  ghost predicate Fresh(row: Row, upstream: seq<string>, mapping: map<string, string>, matcher: Matcher) {
    Pending(row.detected, row.removed) == Detect(GetModels(row.models), upstream, row.ignored, mapping, matcher)
  }

  // ---------------------------------------------------------------- lists

  lemma NormalizeMembers(s: seq<string>)
    requires forall x :: x in s ==> Clean(x)
    ensures forall x :: x in Normalize(s) <==> x in s
  {
    TrimmedFixed(s);
    UniqIn(s);
  }

  lemma DetectMembers(local: seq<string>, upstream: seq<string>, ignored: seq<string>, mapping: map<string, string>,
                      matcher: Matcher)
    ensures var l, u := Normalize(local), Normalize(upstream);
            var r := Detect(local, upstream, ignored, mapping, matcher);
            && r.add == Filter(u, AddWanted(l, Normalize(ignored), mapping, matcher)) && Normal(r.add)
            && r.remove == Filter(l, RemoveWanted(u, mapping)) && Normal(r.remove)
            && (forall x :: x in r.add <==> x in u && AddWanted(l, Normalize(ignored), mapping, matcher)(x))
            && (forall x :: x in r.remove <==> x in l && RemoveWanted(u, mapping)(x))
  {
    var l, u := Normalize(local), Normalize(upstream);
    NormalizeIsNormal(local);
    NormalizeIsNormal(upstream);
    FilterIn(u, AddWanted(l, Normalize(ignored), mapping, matcher));
    FilterIn(l, RemoveWanted(u, mapping));
    FilterNormal(u, AddWanted(l, Normalize(ignored), mapping, matcher));
    NormalizeNormal(Filter(u, AddWanted(l, Normalize(ignored), mapping, matcher)));
    FilterNormal(l, RemoveWanted(u, mapping));
    NormalizeNormal(Filter(l, RemoveWanted(u, mapping)));
  }

  /**
    What a detection returns, over its inputs. Pending additions: the upstream names that are neither local nor a redirect
    target and that no ignore entry covers, a pattern by matching and any other entry by equality. Pending removals: the
    local names that upstream lacks and that are not the source of a redirect. Both distinct and in their list's order.
   */
  lemma DetectMeans(local: seq<string>, upstream: seq<string>, ignored: seq<string>, mapping: map<string, string>,
                    matcher: Matcher)
    ensures var l, u, g := Normalize(local), Normalize(upstream), Normalize(ignored);
            var r := Detect(local, upstream, ignored, mapping, matcher);
            && (forall x :: x in r.add <==>
                  && x in u && x !in l && x !in mapping.Values
                  && forall e :: e in g ==>
                       if "regex:" <= e then !matcher(TrimSpace(e[6..]), x) else e != x)
            && (forall x :: x in r.remove <==> x in l && x !in u && x !in mapping.Keys)
            && Normal(r.add) && KeepsOrder(r.add, u) && Normal(r.remove) && KeepsOrder(r.remove, l)
  {
    var l, u, g := Normalize(local), Normalize(upstream), Normalize(ignored);
    DetectMembers(local, upstream, ignored, mapping, matcher);
    FilterKeepsOrder(u, AddWanted(l, g, mapping, matcher));
    FilterKeepsOrder(l, RemoveWanted(u, mapping));
    forall x
      ensures IgnoredBy(g, x, matcher) <==>
                exists e :: e in g && if "regex:" <= e then matcher(TrimSpace(e[6..]), x) else e == x
    {
      IgnoredIs(g, x, matcher);
    }
  }

  lemma IgnoredIs(g: seq<string>, x: string, matcher: Matcher)
    ensures IgnoredBy(g, x, matcher) <==>
              exists e :: e in g && if "regex:" <= e then matcher(TrimSpace(e[6..]), x) else e == x
  {
    if IgnoredBy(g, x, matcher) {
      var k :| 0 <= k < |g| && Ignores(g[k], x, matcher);
      assert g[k] in g;
    } else {
      forall e | e in g ensures !Ignores(e, x, matcher) { IgnoredMember(g, e, x, matcher); }
    }
  }

  lemma IntersectMembers(base: seq<string>, allowed: seq<string>)
    requires Normal(allowed)
    ensures Normal(Intersect(base, allowed))
    ensures forall x :: x in Intersect(base, allowed) <==> x in Normalize(base) && x in allowed
  {
    NormalizeNormal(allowed);
    NormalizeIsNormal(base);
    FilterNormal(Normalize(base), In(allowed));
    FilterIn(Normalize(base), In(allowed));
  }

  lemma SubtractMembers(base: seq<string>, removed: seq<string>)
    requires Normal(base) && forall x :: x in removed ==> Clean(x)
    ensures Normal(Subtract(base, removed))
    ensures forall x :: x in Subtract(base, removed) <==> x in base && x !in removed
  {
    NormalizeNormal(base);
    NormalizeMembers(removed);
    FilterNormal(base, NotIn(Normalize(removed)));
    FilterIn(base, NotIn(Normalize(removed)));
  }

  // ---------------------------------------------------------------- what a selection of a fresh row does

  /** A selection made from the pending lists of a fresh row. */
  lemma SelectFacts(row: Row, upstream: seq<string>, mapping: map<string, string>, matcher: Matcher,
                    add: seq<string>, ignore: seq<string>, remove: seq<string>)
    requires Fresh(row, upstream, mapping, matcher)
    ensures Chosen(row, upstream, mapping, matcher, Select(row, add, ignore, remove))
  {
    DetectMembers(GetModels(row.models), upstream, row.ignored, mapping, matcher);
    NormalizeNormal(row.detected);
    NormalizeNormal(row.removed);
    IntersectMembers(add, row.detected);
    IntersectMembers(ignore, row.detected);
    IntersectMembers(remove, row.removed);
    SubtractMembers(Intersect(remove, row.removed), Intersect(add, row.detected));
  }

  ghost predicate Chosen(row: Row, upstream: seq<string>, mapping: map<string, string>, matcher: Matcher, s: Selection) {
    && Normal(s.add) && Normal(s.ignore) && Normal(s.remove)
    && Normal(row.detected) && Normal(row.removed)
    && (forall x :: x in s.add || x in s.ignore ==> x in row.detected)
    && (forall x :: x in s.remove ==> x in row.removed)
    && var l, u, g := Normalize(GetModels(row.models)), Normalize(upstream), Normalize(row.ignored);
    && row.detected == Filter(u, AddWanted(l, g, mapping, matcher))
    && row.removed == Filter(l, RemoveWanted(u, mapping))
    && (forall x :: x in row.detected <==> x in u && AddWanted(l, g, mapping, matcher)(x))
    && (forall x :: x in row.removed <==> x in l && RemoveWanted(u, mapping)(x))
  }

  /** The new model list: the old one, then the added names, without the removed ones. */
  lemma NextModelsIs(row: Row, upstream: seq<string>, mapping: map<string, string>, matcher: Matcher, s: Selection)
    requires Chosen(row, upstream, mapping, matcher, s)
    ensures var l := Normalize(GetModels(row.models));
            && NextModels(row, s) == Filter(l + s.add, NotIn(s.remove)) && Normal(NextModels(row, s))
            && (forall x :: x in NextModels(row, s) <==> (x in l || x in s.add) && x !in s.remove)
  {
    NormalizeIsNormal(GetModels(row.models));
    ApplySelectedIs(Normalize(GetModels(row.models)), s.add, s.remove);
  }

  lemma NextIgnoredIs(row: Row, s: Selection)
    requires Normal(s.add) && Normal(s.ignore)
    ensures forall x :: x in Normalize(NextIgnored(row, s)) <==>
                        (x in Normalize(row.ignored) || x in s.ignore) && x !in s.add
  {
    NormalizeNormal(s.ignore);
    MergeNormal(row.ignored, s.ignore);
    var merged := Merge(row.ignored, s.ignore);
    NormalizeNormal(merged);
    SubtractMembers(merged, s.add);
    NormalizeNormal(Subtract(merged, s.add));
  }

  /**
    What a selection does to any row, over the request: pending names that are to be added come to the models and leave
    the ignore list, pending names to be ignored join it, pending names to be removed go unless they are added as well,
    and what was dealt with is no longer pending.
   */
  lemma ApplyMeans(row: Row, add: seq<string>, ignore: seq<string>, remove: seq<string>, now: int, x: string)
    ensures var s := Select(row, add, ignore, remove);
            var r := Apply(row, s, now);
            var toAdd := x in Normalize(add) && x in Normalize(row.detected);
            var toIgnore := x in Normalize(ignore) && x in Normalize(row.detected);
            var toRemove := x in Normalize(remove) && x in Normalize(row.removed) && !toAdd;
            && (x in NextModels(row, s) <==> toAdd || (x in Normalize(GetModels(row.models)) && !toRemove))
            && (x in Normalize(r.ignored) <==> (x in Normalize(row.ignored) || toIgnore) && !toAdd)
            && (x in r.detected <==> x in Normalize(row.detected) && !toAdd && !toIgnore)
            && (x in r.removed <==> x in Normalize(row.removed) && !toRemove)
            && r.lastCheck == now
            && r.models == if Normalize(GetModels(row.models)) == NextModels(row, s) then row.models
                           else Join(NextModels(row, s), ',')
  {
    var s := Select(row, add, ignore, remove);
    SelectMembers(row, add, ignore, remove);
    NormalizeIsNormal(GetModels(row.models));
    NormalizeNormal(Normalize(GetModels(row.models)));
    NormalizeNormal(s.add);
    NormalizeNormal(s.remove);
    ApplySelectedMembers(Normalize(GetModels(row.models)), s.add, s.remove);
    NextIgnoredIs(row, s);
    NormalizeIsNormal(row.detected);
    NormalizeIsNormal(row.removed);
    SubtractMembers(Normalize(row.detected), s.add + s.ignore);
    SubtractMembers(Normalize(row.removed), s.remove);
  }

  /** A selection keeps every list in order: what was there first, then what is new in the order of the request. */
  lemma ApplyKeepsOrder(row: Row, add: seq<string>, ignore: seq<string>, remove: seq<string>)
    ensures var s := Select(row, add, ignore, remove);
            && KeepsOrder(s.add, Normalize(add)) && KeepsOrder(s.ignore, Normalize(ignore))
            && KeepsOrder(NextModels(row, s), Normalize(GetModels(row.models)) + s.add)
            && KeepsOrder(NextIgnored(row, s), Normalize(row.ignored) + s.ignore)
            && KeepsOrder(NextDetected(row, s), Normalize(row.detected))
            && KeepsOrder(NextRemoved(row, s), Normalize(row.removed))
  {
    var s, local := Select(row, add, ignore, remove), Normalize(GetModels(row.models));
    SelectMembers(row, add, ignore, remove);
    ListsKeepOrder(add, Normalize(row.detected));
    ListsKeepOrder(ignore, Normalize(row.detected));
    NormalizeIsNormal(GetModels(row.models));
    NormalizeNormal(local);
    NormalizeNormal(s.add);
    NormalizeNormal(s.ignore);
    MergeThenDrop(local, s.add, Subtract(Normalize(s.remove), s.add));
    MergeThenDrop(row.ignored, s.ignore, s.add);
    ListsKeepOrder(row.ignored, s.ignore);
    NormalizeIsNormal(row.detected);
    NormalizeNormal(Normalize(row.detected));
    ListsKeepOrder(Normalize(row.detected), s.add + s.ignore);
    NormalizeIsNormal(row.removed);
    NormalizeNormal(Normalize(row.removed));
    ListsKeepOrder(Normalize(row.removed), s.remove);
  }

  lemma MergeThenDrop(base: seq<string>, more: seq<string>, drop: seq<string>)
    ensures KeepsOrder(Subtract(Merge(base, more), drop), Normalize(base) + Normalize(more))
  {
    ListsKeepOrder(base, more);
    MergeNormal(base, more);
    NormalizeNormal(Merge(base, more));
    ListsKeepOrder(Merge(base, more), drop);
    KeepsOrderThrough(Subtract(Merge(base, more), drop), Merge(base, more), Normalize(base) + Normalize(more));
  }

  lemma SelectMembers(row: Row, add: seq<string>, ignore: seq<string>, remove: seq<string>)
    ensures var s := Select(row, add, ignore, remove);
            && Normal(s.add) && Normal(s.ignore) && Normal(s.remove)
            && (forall x :: x in s.add <==> x in Normalize(add) && x in Normalize(row.detected))
            && (forall x :: x in s.ignore <==> x in Normalize(ignore) && x in Normalize(row.detected))
            && (forall x :: x in s.remove <==> x in Normalize(remove) && x in Normalize(row.removed) && x !in s.add)
  {
    NormalizeIsNormal(row.detected);
    NormalizeIsNormal(row.removed);
    IntersectMembers(add, Normalize(row.detected));
    IntersectMembers(ignore, Normalize(row.detected));
    IntersectMembers(remove, Normalize(row.removed));
    SubtractMembers(Intersect(remove, Normalize(row.removed)), Intersect(add, Normalize(row.detected)));
  }

  // ---------------------------------------------------------------- the models column

  /** Names read from the models column never contain a comma. */
  lemma LocalNamesFree(models: string)
    ensures FreeOf(Normalize(GetModels(models)), ',')
  {
    if models != "" { SplitPieces(TrimChar(models, ','), ','); }
    TrimmedFree(GetModels(models), ',');
    UniqIn(TrimmedNames(GetModels(models)));
  }

  /** Storing a normal list of comma-free names and reading it back gives the list. */
  lemma StoredModels(names: seq<string>)
    requires Normal(names) && FreeOf(names, ',')
    ensures Normalize(GetModels(Join(names, ','))) == names
  {
    NormalizeNormal(names);
    if names != [] {
      assert names[0] in names && names[|names| - 1] in names;
      JoinSplitRoundTrip(names, ',');
      JoinEnds(names, ',');
    }
  }

  lemma AppliedModels(row: Row, s: Selection, now: int)
    requires Normal(NextModels(row, s)) && FreeOf(NextModels(row, s), ',')
    ensures Normalize(GetModels(Apply(row, s, now).models)) == NextModels(row, s)
  {
    StoredModels(NextModels(row, s));
  }

  // ---------------------------------------------------------------- the cache against a new detection

  /** Some entry ignores x that the selection keeps: an old or a newly ignored one that is not among the added names. */
  ghost predicate KeptIgnoring(ignored: seq<string>, s: Selection, x: string, matcher: Matcher) {
    exists e :: (e in ignored || e in s.ignore) && e !in s.add && Ignores(e, x, matcher)
  }

  /**
    Of the upstream names that stay uncovered, the kept entries ignore exactly those the old list ignored and those the
    selection ignores. Only entries that read as patterns can spoil this.
   */
  ghost predicate IgnoreListExact(row: Row, upstream: seq<string>, mapping: map<string, string>, matcher: Matcher,
                                  s: Selection)
  {
    forall x :: x in Normalize(upstream) ==>
      ExactAt(x, Normalize(GetModels(row.models)), mapping, s,
              IgnoredBy(Normalize(row.ignored), x, matcher), KeptIgnoring(Normalize(row.ignored), s, x, matcher))
  }

  lemma IgnoredByEntry(entries: seq<string>, x: string, matcher: Matcher)
    ensures IgnoredBy(entries, x, matcher) <==> exists e :: e in entries && Ignores(e, x, matcher)
  {
    if IgnoredBy(entries, x, matcher) {
      var k :| 0 <= k < |entries| && Ignores(entries[k], x, matcher);
      assert entries[k] in entries;
    }
    if e :| e in entries && Ignores(e, x, matcher) { IgnoredMember(entries, e, x, matcher); }
  }

  /** What the stored new ignore list ignores is what the kept entries ignore. */
  lemma NextIgnoring(row: Row, s: Selection, x: string, matcher: Matcher)
    requires Normal(s.add) && Normal(s.ignore)
    ensures IgnoredBy(Normalize(NextIgnored(row, s)), x, matcher) <==>
            KeptIgnoring(Normalize(row.ignored), s, x, matcher)
  {
    NextIgnoredIs(row, s);
    IgnoredByEntry(Normalize(NextIgnored(row, s)), x, matcher);
  }

  predicate ExactAt(x: string, local: seq<string>, mapping: map<string, string>, s: Selection, before: bool, after: bool) {
    x !in local && x !in mapping.Values && x !in s.add ==> (after <==> before || x in s.ignore)
  }

  /** No chosen name reads as a pattern. */
  predicate PlainSelection(s: Selection) {
    forall x :: x in s.add + s.ignore ==> !IsRegex(x)
  }

  lemma PlainIsExact(row: Row, upstream: seq<string>, mapping: map<string, string>, matcher: Matcher, s: Selection)
    requires Normal(s.add) && Normal(s.ignore) && PlainSelection(s)
    ensures IgnoreListExact(row, upstream, mapping, matcher, s)
  {
    var before := Normalize(row.ignored);
    forall x | x !in s.add
      ensures KeptIgnoring(before, s, x, matcher) <==> IgnoredBy(before, x, matcher) || x in s.ignore
    {
      PlainExactAt(before, s, x, matcher);
    }
  }

  lemma PlainExactAt(before: seq<string>, s: Selection, x: string, matcher: Matcher)
    requires PlainSelection(s) && x !in s.add
    ensures KeptIgnoring(before, s, x, matcher) <==> IgnoredBy(before, x, matcher) || x in s.ignore
  {
    IgnoredByEntry(before, x, matcher);
    assert forall e :: e in s.add || e in s.ignore ==> e in s.add + s.ignore;
    if x in s.ignore { assert Ignores(x, x, matcher); }
    if e :| e in before && Ignores(e, x, matcher) { assert e !in s.add; }
  }

  /** With comma-free additions a new detection of removals finds the cached remaining removals, in order. */
  lemma RemainingRemovals(row: Row, upstream: seq<string>, mapping: map<string, string>, matcher: Matcher,
                          s: Selection, now: int)
    requires Chosen(row, upstream, mapping, matcher, s) && FreeOf(s.add, ',')
    ensures var row' := Apply(row, s, now);
            Detect(GetModels(row'.models), upstream, row'.ignored, mapping, matcher).remove == row'.removed
  {
    var l, u := Normalize(GetModels(row.models)), Normalize(upstream);
    var row' := Apply(row, s, now);
    NextModelsIs(row, upstream, mapping, matcher, s);
    NextModelsFree(row, upstream, mapping, matcher, s);
    AppliedModels(row, s, now);
    DetectMembers(GetModels(row'.models), upstream, row'.ignored, mapping, matcher);
    var gone, left := RemoveWanted(u, mapping), NotIn(s.remove);
    FilterTwice(l + s.add, left, gone);
    FilterConcat(l, s.add, Both(left, gone));
    FilterNone(s.add, Both(left, gone));
    FilterTwice(l, gone, left);
    FilterSame(l, Both(left, gone), Both(gone, left));
    NormalizeNormal(row.removed);
    NormalizeNormal(s.remove);
  }

  lemma NextModelsFree(row: Row, upstream: seq<string>, mapping: map<string, string>, matcher: Matcher, s: Selection)
    requires Chosen(row, upstream, mapping, matcher, s) && FreeOf(s.add, ',')
    ensures FreeOf(NextModels(row, s), ',')
  {
    NextModelsIs(row, upstream, mapping, matcher, s);
    LocalNamesFree(row.models);
  }

  /** Which upstream names a new detection adds after the selection was applied. */
  lemma NewAdditions(row: Row, upstream: seq<string>, mapping: map<string, string>, matcher: Matcher,
                     s: Selection, now: int)
    requires Chosen(row, upstream, mapping, matcher, s) && FreeOf(s.add, ',')
    ensures var row' := Apply(row, s, now);
            Detect(GetModels(row'.models), upstream, row'.ignored, mapping, matcher).add ==
              Filter(Normalize(upstream), AddWanted(NextModels(row, s), Normalize(NextIgnored(row, s)), mapping, matcher))
  {
    var row' := Apply(row, s, now);
    NextModelsIs(row, upstream, mapping, matcher, s);
    NextModelsFree(row, upstream, mapping, matcher, s);
    AppliedModels(row, s, now);
    DetectMembers(GetModels(row'.models), upstream, row'.ignored, mapping, matcher);
  }

  lemma CachedAdditions(row: Row, upstream: seq<string>, mapping: map<string, string>, matcher: Matcher,
                        s: Selection, now: int)
    requires Chosen(row, upstream, mapping, matcher, s)
    ensures var wanted := AddWanted(Normalize(GetModels(row.models)), Normalize(row.ignored), mapping, matcher);
            var taken := NotIn(Normalize(s.add + s.ignore));
            && Apply(row, s, now).detected == Filter(Normalize(upstream), Both(wanted, taken))
            && (forall x :: x in Normalize(s.add + s.ignore) <==> x in s.add || x in s.ignore)
  {
    NormalizeNormal(row.detected);
    NormalizeMembers(s.add + s.ignore);
    var wanted := AddWanted(Normalize(GetModels(row.models)), Normalize(row.ignored), mapping, matcher);
    FilterTwice(Normalize(upstream), wanted, NotIn(Normalize(s.add + s.ignore)));
  }

  lemma FiltersAgree(u: seq<string>, p: string -> bool, q: string -> bool)
    ensures Filter(u, p) == Filter(u, q) <==> forall x :: x in u ==> p(x) == q(x)
  {
    if forall x :: x in u ==> p(x) == q(x) {
      FilterSame(u, p, q);
    } else {
      var x :| x in u && p(x) != q(x);
      FilterIn(u, p);
      FilterIn(u, q);
      assert (x in Filter(u, p)) != (x in Filter(u, q));
    }
  }

  /** One upstream name: the new detection and the cache treat it alike exactly when ExactAt holds for it. */
  lemma AgreeAt(x: string, local: seq<string>, next: seq<string>, ignored: seq<string>, ignored': seq<string>,
                taken: seq<string>, mapping: map<string, string>, matcher: Matcher, s: Selection)
    requires x in next <==> x in local || x in s.add
    requires x in taken <==> x in s.add || x in s.ignore
    ensures AddWanted(next, ignored', mapping, matcher)(x) ==
              (AddWanted(local, ignored, mapping, matcher)(x) && NotIn(taken)(x)) <==>
            ExactAt(x, local, mapping, s, IgnoredBy(ignored, x, matcher), IgnoredBy(ignored', x, matcher))
  {
  }

  /**
    Comma-free additions: the cached remaining lists equal a new detection, element for element and in order,
    exactly when the new ignore list has its intended effect.
   */
  lemma CacheMatchesDetection(row: Row, upstream: seq<string>, mapping: map<string, string>, matcher: Matcher,
                              add: seq<string>, ignore: seq<string>, remove: seq<string>, now: int)
    requires Fresh(row, upstream, mapping, matcher)
    requires FreeOf(Select(row, add, ignore, remove).add, ',')
    ensures var s := Select(row, add, ignore, remove);
            Fresh(Apply(row, s, now), upstream, mapping, matcher) <==>
            IgnoreListExact(row, upstream, mapping, matcher, s)
  {
    var s := Select(row, add, ignore, remove);
    SelectFacts(row, upstream, mapping, matcher, add, ignore, remove);
    RemainingRemovals(row, upstream, mapping, matcher, s, now);
    AdditionsMatch(row, upstream, mapping, matcher, s, now);
    StoredExactly(row, upstream, mapping, matcher, s);
  }

  /** The same of the ignore list as it is stored. */
  ghost predicate StoredListExact(row: Row, upstream: seq<string>, mapping: map<string, string>, matcher: Matcher,
                                  s: Selection)
  {
    forall x :: x in Normalize(upstream) ==>
      ExactAt(x, Normalize(GetModels(row.models)), mapping, s,
              IgnoredBy(Normalize(row.ignored), x, matcher), IgnoredBy(Normalize(NextIgnored(row, s)), x, matcher))
  }

  lemma StoredExactly(row: Row, upstream: seq<string>, mapping: map<string, string>, matcher: Matcher, s: Selection)
    requires Normal(s.add) && Normal(s.ignore)
    ensures StoredListExact(row, upstream, mapping, matcher, s) <==> IgnoreListExact(row, upstream, mapping, matcher, s)
  {
    forall x ensures IgnoredBy(Normalize(NextIgnored(row, s)), x, matcher) <==>
                     KeptIgnoring(Normalize(row.ignored), s, x, matcher)
    {
      NextIgnoring(row, s, x, matcher);
    }
  }

  lemma AdditionsMatch(row: Row, upstream: seq<string>, mapping: map<string, string>, matcher: Matcher,
                       s: Selection, now: int)
    requires Chosen(row, upstream, mapping, matcher, s) && FreeOf(s.add, ',')
    ensures var row' := Apply(row, s, now);
            Detect(GetModels(row'.models), upstream, row'.ignored, mapping, matcher).add == row'.detected <==>
            StoredListExact(row, upstream, mapping, matcher, s)
  {
    NewAdditions(row, upstream, mapping, matcher, s, now);
    CachedAdditions(row, upstream, mapping, matcher, s, now);
    NextModelsIs(row, upstream, mapping, matcher, s);
    FilteredAlike(Normalize(upstream), Normalize(GetModels(row.models)), NextModels(row, s), Normalize(row.ignored),
                  Normalize(NextIgnored(row, s)), Normalize(s.add + s.ignore), mapping, matcher, s);
  }

  lemma FilteredAlike(u: seq<string>, local: seq<string>, next: seq<string>, ignored: seq<string>, ignored': seq<string>,
                      taken: seq<string>, mapping: map<string, string>, matcher: Matcher, s: Selection)
    requires forall x :: x in u ==> (x in next <==> x in local || x in s.add)
    requires forall x :: x in taken <==> x in s.add || x in s.ignore
    ensures Filter(u, AddWanted(next, ignored', mapping, matcher)) ==
              Filter(u, Both(AddWanted(local, ignored, mapping, matcher), NotIn(taken))) <==>
            forall x :: x in u ==>
              ExactAt(x, local, mapping, s, IgnoredBy(ignored, x, matcher), IgnoredBy(ignored', x, matcher))
  {
    var p, q := AddWanted(next, ignored', mapping, matcher), Both(AddWanted(local, ignored, mapping, matcher), NotIn(taken));
    FiltersAgree(u, p, q);
    forall x | x in u
      ensures p(x) == q(x) <==>
              ExactAt(x, local, mapping, s, IgnoredBy(ignored, x, matcher), IgnoredBy(ignored', x, matcher))
    {
      AgreeAt(x, local, next, ignored, ignored', taken, mapping, matcher, s);
    }
  }

  /** The new ignore list does not ignore what was just added. */
  lemma AddedNotIgnored(row: Row, s: Selection, a: string, matcher: Matcher)
    requires Normal(s.add) && Normal(s.ignore) && PlainSelection(s) && a in s.add
    requires !IgnoredBy(Normalize(row.ignored), a, matcher)
    ensures !IgnoredBy(Normalize(NextIgnored(row, s)), a, matcher)
  {
    NextIgnoredIs(row, s);
    var before, after := Normalize(row.ignored), Normalize(NextIgnored(row, s));
    forall k | 0 <= k < |after| ensures !Ignores(after[k], a, matcher) {
      assert after[k] in after;
      IgnoredMember(before, after[k], a, matcher);
    }
  }

  /** A selected addition with a comma is stored as several models, so a new detection finds it missing again. */
  lemma CommaReappears(row: Row, upstream: seq<string>, mapping: map<string, string>, matcher: Matcher,
                       s: Selection, now: int, a: string)
    requires Chosen(row, upstream, mapping, matcher, s) && PlainSelection(s)
    requires a in s.add && ',' in a
    ensures a in Detect(GetModels(Apply(row, s, now).models), upstream, NextIgnored(row, s), mapping, matcher).add
    ensures a !in Apply(row, s, now).detected
  {
    var models' := Apply(row, s, now).models;
    assert a in row.detected;
    AddedNotIgnored(row, s, a, matcher);
    LocalNamesFree(models');
    DetectMembers(GetModels(models'), upstream, NextIgnored(row, s), mapping, matcher);
    SubtractMembers(row.detected, s.add + s.ignore);
    NormalizeNormal(row.detected);
  }

  /**
    Selections of plain names: the cached remaining lists equal a new detection against the same upstream list,
    element for element and in order, exactly when no selected addition contains a comma.
   */
  lemma PlainCacheMatchesDetection(row: Row, upstream: seq<string>, mapping: map<string, string>, matcher: Matcher,
                                   add: seq<string>, ignore: seq<string>, remove: seq<string>, now: int)
    requires Fresh(row, upstream, mapping, matcher)
    requires PlainSelection(Select(row, add, ignore, remove))
    ensures var s := Select(row, add, ignore, remove);
            Fresh(Apply(row, s, now), upstream, mapping, matcher) <==> FreeOf(s.add, ',')
  {
    var s := Select(row, add, ignore, remove);
    SelectFacts(row, upstream, mapping, matcher, add, ignore, remove);
    if FreeOf(s.add, ',') {
      PlainIsExact(row, upstream, mapping, matcher, s);
      CacheMatchesDetection(row, upstream, mapping, matcher, add, ignore, remove, now);
    } else {
      var a :| a in s.add && ',' in a;
      CommaReappears(row, upstream, mapping, matcher, s, now, a);
    }
  }

  /**
    Why the names must be plain: ignoring a model whose name reads as a pattern, when no pattern among the ignored names
    matches it, leaves it wanted; the cache drops it and every later detection finds it again.
   */
  lemma PatternNameReappears(row: Row, upstream: seq<string>, mapping: map<string, string>, matcher: Matcher,
                             add: seq<string>, ignore: seq<string>, remove: seq<string>, now: int, g: string)
    requires Fresh(row, upstream, mapping, matcher)
    requires FreeOf(Select(row, add, ignore, remove).add, ',')
    requires g in Select(row, add, ignore, remove).ignore && g !in Select(row, add, ignore, remove).add && IsRegex(g)
    requires forall e :: e in Select(row, add, ignore, remove).ignore && IsRegex(e) ==>
               !matcher(TrimSpace(e[|REGEX_PREFIX|..]), g)
    ensures !Fresh(Apply(row, Select(row, add, ignore, remove), now), upstream, mapping, matcher)
  {
    var s := Select(row, add, ignore, remove);
    SelectFacts(row, upstream, mapping, matcher, add, ignore, remove);
    NotExact(row, upstream, mapping, matcher, s, g);
    CacheMatchesDetection(row, upstream, mapping, matcher, add, ignore, remove, now);
  }

  lemma NotExact(row: Row, upstream: seq<string>, mapping: map<string, string>, matcher: Matcher, s: Selection, g: string)
    requires Chosen(row, upstream, mapping, matcher, s) && g in s.ignore && g !in s.add && IsRegex(g)
    requires forall e :: e in s.ignore && IsRegex(e) ==> !matcher(TrimSpace(e[|REGEX_PREFIX|..]), g)
    ensures !IgnoreListExact(row, upstream, mapping, matcher, s)
  {
    assert g in row.detected;
    IgnoredByEntry(Normalize(row.ignored), g, matcher);
    assert !KeptIgnoring(Normalize(row.ignored), s, g, matcher);
    assert !ExactAt(g, Normalize(GetModels(row.models)), mapping, s, IgnoredBy(Normalize(row.ignored), g, matcher),
                    KeptIgnoring(Normalize(row.ignored), s, g, matcher));
  }

  /** Applying everything that is pending is a fixpoint: the next detection finds nothing. */
  lemma ApplyAllIsFixpoint(row: Row, upstream: seq<string>, mapping: map<string, string>, matcher: Matcher, now: int)
    requires Fresh(row, upstream, mapping, matcher)
    requires forall x :: x in row.detected ==> !IsRegex(x)
    ensures var row' := Apply(row, Select(row, row.detected, [], row.removed), now);
            && row'.detected == [] && row'.removed == []
            && (Detect(GetModels(row'.models), upstream, row'.ignored, mapping, matcher) == Pending([], []) <==>
                FreeOf(row.detected, ','))
  {
    var s := Select(row, row.detected, [], row.removed);
    SelectFacts(row, upstream, mapping, matcher, row.detected, [], row.removed);
    NormalizeNormal(row.detected);
    NormalizeNormal(row.removed);
    IntersectMembers(row.detected, row.detected);
    IntersectMembers([], row.detected);
    IntersectMembers(row.removed, row.removed);
    SubtractMembers(Intersect(row.removed, row.removed), s.add);
    FilterAll(row.detected, In(row.detected));
    assert s.add == row.detected;
    SubtractMembers(row.detected, s.add + s.ignore);
    SubtractMembers(row.removed, s.remove);
    DetectMembers(GetModels(row.models), upstream, row.ignored, mapping, matcher);
    NothingLeft(Apply(row, s, now).detected);
    NothingLeft(Apply(row, s, now).removed);
    PlainCacheMatchesDetection(row, upstream, mapping, matcher, row.detected, [], row.removed, now);
  }

  lemma NothingLeft(s: seq<string>)
    ensures s == [] || exists x :: x in s
  {
    if s != [] { assert s[0] in s; }
  }

  // ---------------------------------------------------------------- the periodic check

  datatype CheckResult = CheckResult(row: Row, changed: bool, autoAdded: int)

  /** checkAndPersistChannelUpstreamModelUpdates; `upstream` is None when the fetch failed. */
  function Check(row: Row, upstream: Option<seq<string>>, mapping: map<string, string>, matcher: Matcher,
                 force: bool, minInterval: int, autoSync: bool, now: int): (r: CheckResult)
  {
    if !force && row.lastCheck > 0 && now - row.lastCheck < minInterval then CheckResult(row, false, 0)
    else if upstream == None then CheckResult(row.(lastCheck := now), false, 0)
    else Record(row, Detect(GetModels(row.models), upstream.value, row.ignored, mapping, matcher), autoSync, now)
  }

  function Record(row: Row, p: Pending, autoSync: bool, now: int): (r: CheckResult) {
    var checked := row.(removed := p.remove, lastCheck := now);
    if autoSync && |p.add| > 0 then
      var origin := Normalize(GetModels(row.models));
      var merged := Merge(origin, p.add);
      if |merged| > |origin|
      then CheckResult(checked.(models := Join(merged, ','), detected := []), true, |merged| - |origin|)
      else CheckResult(checked.(detected := []), false, 0)
    else CheckResult(checked.(detected := p.add), false, 0)
  }

  /** Without auto-sync a check that fetched the upstream list leaves a fresh cache. */
  lemma CheckIsFresh(row: Row, upstream: seq<string>, mapping: map<string, string>, matcher: Matcher, now: int)
    ensures Fresh(Check(row, Some(upstream), mapping, matcher, true, 0, false, now).row, upstream, mapping, matcher)
  {
  }

  /** The pending additions are new names, so merging them appends them. */
  lemma MergedAdditions(row: Row, upstream: seq<string>, mapping: map<string, string>, matcher: Matcher)
    ensures var origin := Normalize(GetModels(row.models));
            var p := Detect(GetModels(row.models), upstream, row.ignored, mapping, matcher);
            && Merge(origin, p.add) == origin + p.add && Normal(origin + p.add)
            && (forall x :: x in p.add ==> x in Normalize(upstream))
            && (FreeOf(p.add, ',') ==> FreeOf(origin + p.add, ','))
  {
    var origin := Normalize(GetModels(row.models));
    DetectMembers(GetModels(row.models), upstream, row.ignored, mapping, matcher);
    var p := Detect(GetModels(row.models), upstream, row.ignored, mapping, matcher);
    NormalizeIsNormal(GetModels(row.models));
    MergeDisjoint(origin, p.add);
    LocalNamesFree(row.models);
  }

  /**
    Auto-sync adds exactly the pending additions, and the next check against the same upstream list finds no more of
    them exactly when none of their names contains a comma; the removals it finds are the ones stored.
   */
  lemma AutoSyncConverges(row: Row, upstream: seq<string>, mapping: map<string, string>, matcher: Matcher, now: int)
    ensures var p := Detect(GetModels(row.models), upstream, row.ignored, mapping, matcher);
            var r := Check(row, Some(upstream), mapping, matcher, true, 0, true, now);
            var again := Detect(GetModels(r.row.models), upstream, r.row.ignored, mapping, matcher);
            && r.autoAdded == |p.add| && r.row.removed == p.remove
            && (again.add == [] <==> FreeOf(p.add, ','))
            && (FreeOf(p.add, ',') ==> again.remove == p.remove)
  {
    var p := Detect(GetModels(row.models), upstream, row.ignored, mapping, matcher);
    AutoSyncStores(row, upstream, mapping, matcher, now);
    if p.add != [] {
      SyncedAgain(row, upstream, mapping, matcher, p, Join(Normalize(GetModels(row.models)) + p.add, ','));
    }
  }

  /** What an auto-sync stores. */
  lemma AutoSyncStores(row: Row, upstream: seq<string>, mapping: map<string, string>, matcher: Matcher, now: int)
    ensures var p := Detect(GetModels(row.models), upstream, row.ignored, mapping, matcher);
            var r := Check(row, Some(upstream), mapping, matcher, true, 0, true, now);
            && r.autoAdded == |p.add| && r.row.removed == p.remove && r.row.ignored == row.ignored
            && r.row.models ==
                 if p.add == [] then row.models else Join(Normalize(GetModels(row.models)) + p.add, ',')
  {
    MergedAdditions(row, upstream, mapping, matcher);
  }

  /**
    A check over its inputs. Too early, or without an upstream list, it finds and changes nothing but the time of the
    check. Otherwise it stores the pending removals, and either adds the pending additions to the models, in order, or
    stores them as pending.
   */
  lemma CheckMeans(row: Row, upstream: Option<seq<string>>, mapping: map<string, string>, matcher: Matcher,
                   force: bool, minInterval: int, autoSync: bool, now: int)
    ensures var r := Check(row, upstream, mapping, matcher, force, minInterval, autoSync, now);
            if !force && row.lastCheck >= 1 && row.lastCheck + minInterval > now then
              r.row == row && !r.changed && r.autoAdded == 0
            else if upstream.None? then
              r.row == row.(lastCheck := now) && !r.changed && r.autoAdded == 0
            else
              var p := Detect(GetModels(row.models), upstream.value, row.ignored, mapping, matcher);
              && r.row.removed == p.remove && r.row.ignored == row.ignored && r.row.lastCheck == now
              && r.row.detected == (if autoSync then [] else p.add)
              && r.autoAdded == (if autoSync then |p.add| else 0)
              && (r.changed <==> autoSync && p.add != [])
              && r.row.models == if r.changed then Join(Normalize(GetModels(row.models)) + p.add, ',') else row.models
  {
    if upstream.Some? { MergedAdditions(row, upstream.value, mapping, matcher); }
  }

  lemma SyncedAgain(row: Row, upstream: seq<string>, mapping: map<string, string>, matcher: Matcher, p: Pending,
                    models': string)
    requires p == Detect(GetModels(row.models), upstream, row.ignored, mapping, matcher)
    requires models' == Join(Normalize(GetModels(row.models)) + p.add, ',')
    ensures var again := Detect(GetModels(models'), upstream, row.ignored, mapping, matcher);
            (again.add == [] <==> FreeOf(p.add, ',')) && (FreeOf(p.add, ',') ==> again.remove == p.remove)
  {
    if FreeOf(p.add, ',') {
      AutoSyncClean(row, upstream, mapping, matcher, p);
    } else {
      var a :| a in p.add && ',' in a;
      CommaStays(row, upstream, mapping, matcher, models', a);
    }
  }

  /** Whatever the models column holds, a pending name with a comma is found missing again. */
  lemma CommaStays(row: Row, upstream: seq<string>, mapping: map<string, string>, matcher: Matcher,
                   models': string, a: string)
    requires a in Detect(GetModels(row.models), upstream, row.ignored, mapping, matcher).add && ',' in a
    ensures a in Detect(GetModels(models'), upstream, row.ignored, mapping, matcher).add
  {
    DetectMembers(GetModels(row.models), upstream, row.ignored, mapping, matcher);
    DetectMembers(GetModels(models'), upstream, row.ignored, mapping, matcher);
    LocalNamesFree(models');
  }

  lemma AutoSyncClean(row: Row, upstream: seq<string>, mapping: map<string, string>, matcher: Matcher, p: Pending)
    requires p == Detect(GetModels(row.models), upstream, row.ignored, mapping, matcher) && FreeOf(p.add, ',')
    ensures var models' := Join(Normalize(GetModels(row.models)) + p.add, ',');
            Detect(GetModels(models'), upstream, row.ignored, mapping, matcher) == Pending([], p.remove)
  {
    var origin, u := Normalize(GetModels(row.models)), Normalize(upstream);
    var models' := Join(origin + p.add, ',');
    MergedAdditions(row, upstream, mapping, matcher);
    StoredModels(origin + p.add);
    DetectMembers(GetModels(row.models), upstream, row.ignored, mapping, matcher);
    DetectMembers(GetModels(models'), upstream, row.ignored, mapping, matcher);
    FilterNone(u, AddWanted(origin + p.add, Normalize(row.ignored), mapping, matcher));
    FilterConcat(origin, p.add, RemoveWanted(u, mapping));
    FilterNone(p.add, RemoveWanted(u, mapping));
  }

  // ---------------------------------------------------------------- the code that updates in place

  method ToSet(names: seq<string>) returns (r: set<string>)
    ensures forall x :: x in r <==> x in names
  {
    r := {};
    for k := 0 to |names|
      invariant forall x :: x in r <==> x in names[..k]
    {
      r := r + {names[k]};
    }
  }

  method FilterAdditions(u: seq<string>, l: seq<string>, g: seq<string>, mapping: map<string, string>, matcher: Matcher)
    returns (add: seq<string>)
    ensures add == Filter(u, AddWanted(l, g, mapping, matcher))
  {
    var localSet := ToSet(l);
    var covered := localSet + mapping.Values;
    add := [];
    for k := 0 to |u|
      invariant add == Filter(u[..k], AddWanted(l, g, mapping, matcher))
    {
      assert u[..k + 1] == u[..k] + [u[k]];
      FilterSnoc(u[..k], u[k], AddWanted(l, g, mapping, matcher));
      if u[k] !in covered && !IgnoredBy(g, u[k], matcher) { add := add + [u[k]]; }
    }
    assert u[..|u|] == u;
  }

  method FilterRemovals(l: seq<string>, u: seq<string>, mapping: map<string, string>) returns (remove: seq<string>)
    ensures remove == Filter(l, RemoveWanted(u, mapping))
  {
    var upstreamSet := ToSet(u);
    remove := [];
    for k := 0 to |l|
      invariant remove == Filter(l[..k], RemoveWanted(u, mapping))
    {
      assert l[..k + 1] == l[..k] + [l[k]];
      FilterSnoc(l[..k], l[k], RemoveWanted(u, mapping));
      if l[k] !in mapping && l[k] !in upstreamSet { remove := remove + [l[k]]; }
    }
    assert l[..|l|] == l;
  }

  /** The detection: the sets are filled in loops, the lists filtered against them. */
  method CollectPending(local: seq<string>, upstream: seq<string>, ignored: seq<string>, mapping: map<string, string>,
                        matcher: Matcher) returns (p: Pending)
    ensures p == Detect(local, upstream, ignored, mapping, matcher)
  {
    var l, u := Normalize(local), Normalize(upstream);
    var add := FilterAdditions(u, l, Normalize(ignored), mapping, matcher);
    var remove := FilterRemovals(l, u, mapping);
    p := Pending(Normalize(add), Normalize(remove));
  }

  class Channel {
    var models: string
    var ignored: seq<string>
    var detected: seq<string>
    var removed: seq<string>
    var lastCheck: int
    const mapping: map<string, string>

    constructor (row: Row, mapping: map<string, string>)
      ensures View() == row && this.mapping == mapping
    {
      models, ignored, detected, removed, lastCheck := row.models, row.ignored, row.detected, row.removed, row.lastCheck;
      this.mapping := mapping;
    }

    function View(): (row: Row)
      reads this
    {
      Row(models, ignored, detected, removed, lastCheck)
    }

    method CheckUpstream(upstream: Option<seq<string>>, matcher: Matcher, force: bool, minInterval: int,
                         autoSync: bool, now: int) returns (changed: bool, autoAdded: int)
      modifies this
      ensures var r := Check(old(View()), upstream, mapping, matcher, force, minInterval, autoSync, now);
              View() == r.row && changed == r.changed && autoAdded == r.autoAdded
    {
      changed, autoAdded := false, 0;
      if !force && lastCheck > 0 && now - lastCheck < minInterval { return; }
      lastCheck := now;
      if upstream == None { return; }
      var p := CollectPending(GetModels(models), upstream.value, ignored, mapping, matcher);
      changed, autoAdded := RecordPending(p, autoSync);
    }

    method RecordPending(p: Pending, autoSync: bool) returns (changed: bool, autoAdded: int)
      modifies this`models, this`detected, this`removed
      ensures var r := Record(old(View()), p, autoSync, lastCheck);
              View() == r.row && changed == r.changed && autoAdded == r.autoAdded
    {
      changed, autoAdded := false, 0;
      if autoSync && |p.add| > 0 {
        changed, autoAdded := AddAll(p.add);
        detected := [];
      } else {
        detected := p.add;
      }
      removed := p.remove;
    }

    method AddAll(add: seq<string>) returns (changed: bool, autoAdded: int)
      modifies this`models
      ensures var origin := Normalize(GetModels(old(models)));
              var merged := Merge(origin, add);
              && (changed <==> |merged| > |origin|)
              && autoAdded == (if changed then |merged| - |origin| else 0)
              && models == if changed then Join(merged, ',') else old(models)
    {
      var origin := Normalize(GetModels(models));
      var merged := MergeModelNames(origin, add);
      changed, autoAdded := false, 0;
      if |merged| > |origin| {
        models := Join(merged, ',');
        changed, autoAdded := true, |merged| - |origin|;
      }
    }

    method ApplyUpdates(add: seq<string>, ignore: seq<string>, remove: seq<string>, now: int)
      returns (added: seq<string>, dropped: seq<string>, remaining: seq<string>, remainingRemove: seq<string>, changed: bool)
      modifies this
      ensures var s := Select(old(View()), add, ignore, remove);
              && View() == Apply(old(View()), s, now)
              && added == s.add && dropped == s.remove && remaining == detected && remainingRemove == removed
              && (changed <==> Changes(old(View()), s))
    {
      var s := Choose(add, ignore, remove);
      added, dropped := s.add, s.remove;
      changed := ApplySelection(s, now);
      remaining, remainingRemove := detected, removed;
    }

    /** What of the request names a pending change. */
    method Choose(add: seq<string>, ignore: seq<string>, remove: seq<string>) returns (s: Selection)
      ensures s == Select(View(), add, ignore, remove)
    {
      var pendingAdd, pendingRemove := Normalize(detected), Normalize(removed);
      var added := Intersect(add, pendingAdd);
      var ignoring := Intersect(ignore, pendingAdd);
      s := Selection(added, ignoring, Subtract(Intersect(remove, pendingRemove), added));
    }

    method ApplySelection(s: Selection, now: int) returns (changed: bool)
      modifies this
      ensures View() == Apply(old(View()), s, now)
      ensures changed <==> Changes(old(View()), s)
    {
      var row;
      row, changed := NewRow(s, now);
      Store(row);
    }

    method Store(row: Row)
      modifies this
      ensures View() == row
    {
      models, ignored, detected, removed, lastCheck := row.models, row.ignored, row.detected, row.removed, row.lastCheck;
    }

    /** The columns as they are to be stored. */
    method NewRow(s: Selection, now: int) returns (row: Row, changed: bool)
      ensures row == Apply(View(), s, now)
      ensures changed <==> Changes(View(), s)
    {
      var column, newIgnored;
      column, changed := NewColumn(s);
      newIgnored := NewIgnored(s);
      row := Row(column, newIgnored, NextDetected(View(), s), NextRemoved(View(), s), now);
    }

    method NewColumn(s: Selection) returns (column: string, changed: bool)
      ensures column == NextColumn(View(), s)
      ensures changed <==> Changes(View(), s)
    {
      var origin := Normalize(GetModels(models));
      var next := ApplySelected(origin, s.add, s.remove);
      changed := origin != next;
      column := if changed then Join(next, ',') else models;
    }

    method NewIgnored(s: Selection) returns (r: seq<string>)
      ensures r == NextIgnored(View(), s)
    {
      r := MergeModelNames(ignored, s.ignore);
      if |s.add| > 0 { r := Subtract(r, s.add); }
    }
  }
}
