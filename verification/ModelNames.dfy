/** The list helpers of controller/channel_upstream_update.go: normalise, merge, subtract, intersect, apply. */
module ModelNames {
  import opened Text

  function Filter(s: seq<string>, p: string -> bool): (r: seq<string>) {
    if s == [] then []
    else
      var r := Filter(s[..|s| - 1], p);
      if p(s[|s| - 1]) then r + [s[|s| - 1]] else r
  }

  /** lo.Uniq: the first occurrence of every element. */
  function Uniq(s: seq<string>): (r: seq<string>) {
    if s == [] then []
    else
      var r := Uniq(s[..|s| - 1]);
      if s[|s| - 1] in r then r else r + [s[|s| - 1]]
  }

  predicate Distinct(s: seq<string>) {
    forall i, j :: 0 <= i < j < |s| ==> s[i] != s[j]
  }

  predicate Clean(name: string) {
    name != "" && TrimSpace(name) == name
  }

  /** lo.FilterMap with TrimSpace: trimmed names, blanks dropped. */
  function TrimmedNames(s: seq<string>): (r: seq<string>) {
    if s == [] then []
    else
      var r := TrimmedNames(s[..|s| - 1]);
      var name := TrimSpace(s[|s| - 1]);
      if name != "" then r + [name] else r
  }

  /** normalizeModelNames. */
  function Normalize(s: seq<string>): (r: seq<string>) {
    Uniq(TrimmedNames(s))
  }

  lemma {:induction false} FilterIn(s: seq<string>, p: string -> bool)
    ensures forall x :: x in Filter(s, p) <==> x in s && p(x)
  {
    if s != [] {
      FilterIn(s[..|s| - 1], p);
      assert s == s[..|s| - 1] + [s[|s| - 1]];
    }
  }

  lemma {:induction false} UniqIn(s: seq<string>)
    ensures Distinct(Uniq(s)) && forall x :: x in Uniq(s) <==> x in s
  {
    if s != [] {
      UniqIn(s[..|s| - 1]);
      assert s == s[..|s| - 1] + [s[|s| - 1]];
    }
  }

  lemma {:induction false} TrimmedClean(s: seq<string>)
    ensures forall x :: x in TrimmedNames(s) ==> Clean(x)
  {
    if s != [] {
      TrimmedClean(s[..|s| - 1]);
      TrimSpaceTwice(s[|s| - 1]);
    }
  }

  lemma {:induction false} TrimmedFree(s: seq<string>, c: char)
    requires FreeOf(s, c)
    ensures FreeOf(TrimmedNames(s), c)
  {
    if s != [] {
      assert s[|s| - 1] in s && forall x :: x in s[..|s| - 1] ==> x in s;
      TrimmedFree(s[..|s| - 1], c);
      TrimSpaceChars(s[|s| - 1], c);
    }
  }

  /** The result of normalizeModelNames is normal. */
  lemma NormalizeIsNormal(s: seq<string>)
    ensures Normal(Normalize(s))
  {
    TrimmedClean(s);
    UniqIn(TrimmedNames(s));
  }

  /** x comes before y. */
  ghost predicate Before(x: string, y: string, s: seq<string>) {
    exists i, j :: 0 <= i < j < |s| && s[i] == x && s[j] == y
  }

  /** The names of part stand in the order they have in whole. */
  ghost predicate KeepsOrder(part: seq<string>, whole: seq<string>) {
    forall i, j :: 0 <= i < j < |part| ==> Before(part[i], part[j], whole)
  }

  lemma BeforeLonger(x: string, y: string, a: seq<string>, z: string)
    ensures Before(x, y, a) ==> Before(x, y, a + [z])
    ensures x in a ==> Before(x, z, a + [z])
  {
    var s := a + [z];
    if Before(x, y, a) {
      var i, j :| 0 <= i < j < |a| && a[i] == x && a[j] == y;
      assert s[i] == x && s[j] == y;
    }
    if x in a {
      var i :| 0 <= i < |a| && a[i] == x;
      assert s[i] == x && s[|a|] == z;
    }
  }

  lemma {:induction false} FilterKeepsOrder(s: seq<string>, p: string -> bool)
    ensures KeepsOrder(Filter(s, p), s)
  {
    if s != [] {
      var init, x := s[..|s| - 1], s[|s| - 1];
      var r, r' := Filter(init, p), Filter(s, p);
      FilterKeepsOrder(init, p);
      FilterIn(init, p);
      assert s == init + [x];
      forall i, j | 0 <= i < j < |r'| ensures Before(r'[i], r'[j], s) {
        assert r'[i] == r[i] && r[i] in r;
        BeforeLonger(r'[i], r'[j], init, x);
      }
    }
  }

  lemma KeepsOrderThrough(part: seq<string>, mid: seq<string>, whole: seq<string>)
    requires KeepsOrder(part, mid) && KeepsOrder(mid, whole)
    ensures KeepsOrder(part, whole)
  {
    forall i, j | 0 <= i < j < |part| ensures Before(part[i], part[j], whole) {
      var a, b :| 0 <= a < b < |mid| && mid[a] == part[i] && mid[b] == part[j];
      assert Before(mid[a], mid[b], whole);
    }
  }

  lemma KeepsOrderBehind(a: seq<string>, part: seq<string>, whole: seq<string>)
    requires KeepsOrder(part, whole) && forall x :: x in part ==> x in whole
    ensures KeepsOrder(a + part, a + whole)
  {
    var p, w := a + part, a + whole;
    forall i, j | 0 <= i < j < |p| ensures Before(p[i], p[j], w) {
      if j < |a| {
        assert w[i] == p[i] && w[j] == p[j];
      } else {
        assert p[j] == part[j - |a|] && part[j - |a|] in part;
        if i < |a| {
          var k :| 0 <= k < |whole| && whole[k] == p[j];
          assert w[i] == p[i] && w[|a| + k] == p[j];
        } else {
          assert Before(part[i - |a|], part[j - |a|], whole);
          var m, n :| 0 <= m < n < |whole| && whole[m] == p[i] && whole[n] == p[j];
          assert w[|a| + m] == p[i] && w[|a| + n] == p[j];
        }
      }
    }
  }

  /** In s, read without surrounding blanks, x occurs before y does. */
  ghost predicate FirstBefore(x: string, y: string, s: seq<string>) {
    exists a :: 0 <= a < |s| && TrimSpace(s[a]) == x && forall b :: 0 <= b <= a ==> TrimSpace(s[b]) != y
  }

  ghost predicate Occurs(x: string, s: seq<string>) {
    exists a :: 0 <= a < |s| && TrimSpace(s[a]) == x
  }

  lemma OccursSnoc(init: seq<string>, z: string, x: string)
    ensures Occurs(x, init + [z]) <==> Occurs(x, init) || TrimSpace(z) == x
  {
    var s := init + [z];
    if Occurs(x, init) {
      var a :| 0 <= a < |init| && TrimSpace(init[a]) == x;
      assert TrimSpace(s[a]) == x;
    }
    if TrimSpace(z) == x { assert TrimSpace(s[|init|]) == x; }
    if Occurs(x, s) {
      var a :| 0 <= a < |s| && TrimSpace(s[a]) == x;
      if a < |init| { assert TrimSpace(init[a]) == x; }
    }
  }

  lemma {:induction false} TrimmedOccur(s: seq<string>, x: string)
    ensures x in TrimmedNames(s) <==> x != "" && Occurs(x, s)
  {
    if s != [] {
      var init, z := s[..|s| - 1], s[|s| - 1];
      TrimmedOccur(init, x);
      assert s == init + [z];
      OccursSnoc(init, z, x);
    }
  }

  lemma FirstBeforeLonger(x: string, y: string, init: seq<string>, z: string)
    ensures FirstBefore(x, y, init) ==> FirstBefore(x, y, init + [z])
    ensures Occurs(x, init) && !Occurs(y, init) ==> FirstBefore(x, y, init + [z])
  {
    var s := init + [z];
    if FirstBefore(x, y, init) {
      var a :| 0 <= a < |init| && TrimSpace(init[a]) == x && forall b :: 0 <= b <= a ==> TrimSpace(init[b]) != y;
      assert TrimSpace(s[a]) == x && forall b :: 0 <= b <= a ==> s[b] == init[b];
    }
    if Occurs(x, init) && !Occurs(y, init) {
      var a :| 0 <= a < |init| && TrimSpace(init[a]) == x;
      assert TrimSpace(s[a]) == x && forall b :: 0 <= b <= a ==> s[b] == init[b];
    }
  }

  lemma NormalizeSnoc(init: seq<string>, z: string)
    ensures var r, name := Normalize(init), TrimSpace(z);
            Normalize(init + [z]) == if name == "" || name in r then r else r + [name]
  {
    var t := TrimmedNames(init);
    assert (init + [z])[..|init|] == init;
    assert (t + [TrimSpace(z)])[..|t|] == t;
  }

  ghost predicate FirstOrder(r: seq<string>, s: seq<string>) {
    forall i, j :: 0 <= i < j < |r| ==> FirstBefore(r[i], r[j], s)
  }

  lemma FirstOrderLonger(r: seq<string>, init: seq<string>, z: string)
    requires FirstOrder(r, init)
    ensures FirstOrder(r, init + [z])
  {
    forall i, j | 0 <= i < j < |r| ensures FirstBefore(r[i], r[j], init + [z]) {
      FirstBeforeLonger(r[i], r[j], init, z);
    }
  }

  lemma FirstOrderSnoc(r: seq<string>, y: string, init: seq<string>, z: string)
    requires FirstOrder(r, init) && !Occurs(y, init) && forall i :: 0 <= i < |r| ==> Occurs(r[i], init)
    ensures FirstOrder(r + [y], init + [z])
  {
    var r' := r + [y];
    forall i, j | 0 <= i < j < |r'| ensures FirstBefore(r'[i], r'[j], init + [z]) {
      assert r'[i] == r[i];
      FirstBeforeLonger(r'[i], r'[j], init, z);
    }
  }

  lemma NormalizeOccur(s: seq<string>, x: string)
    ensures x in Normalize(s) <==> x != "" && Occurs(x, s)
  {
    UniqIn(TrimmedNames(s));
    TrimmedOccur(s, x);
  }

  /** The normalised names stand in the order in which they first occur. */
  lemma {:induction false} NormalizeKeepsOrder(s: seq<string>)
    ensures FirstOrder(Normalize(s), s)
  {
    if s != [] {
      var init, z := s[..|s| - 1], s[|s| - 1];
      var r, name := Normalize(init), TrimSpace(s[|s| - 1]);
      assert s == init + [z];
      NormalizeKeepsOrder(init);
      NormalizeSnoc(init, z);
      if name == "" || name in r {
        FirstOrderLonger(r, init, z);
      } else {
        NormalizeOccur(init, name);
        forall i | 0 <= i < |r| ensures Occurs(r[i], init) { NormalizeOccur(init, r[i]); }
        FirstOrderSnoc(r, name, init, z);
      }
    }
  }

  /** normalizeModelNames over its input: each non-blank name once, without surrounding blanks, where it first occurs. */
  lemma NormalizeMeans(s: seq<string>)
    ensures var r := Normalize(s);
            Distinct(r) && (forall x :: x in r <==> x != "" && Occurs(x, s)) && FirstOrder(r, s)
  {
    UniqIn(TrimmedNames(s));
    NormalizeKeepsOrder(s);
    forall x ensures x in Normalize(s) <==> x != "" && Occurs(x, s) { NormalizeOccur(s, x); }
  }

  /** A list normalizeModelNames has nothing to do to: trimmed, non-empty, distinct names. */
  predicate Normal(s: seq<string>) {
    && Distinct(s)
    && (forall x :: x in s ==> Clean(x))
  }

  lemma {:induction false} NormalizeNormal(s: seq<string>)
    requires Normal(s)
    ensures Normalize(s) == s
  {
    TrimmedFixed(s);
    UniqFixed(s);
  }

  lemma {:induction false} TrimmedFixed(s: seq<string>)
    requires forall x :: x in s ==> Clean(x)
    ensures TrimmedNames(s) == s
  {
    if s != [] {
      var init, last := s[..|s| - 1], s[|s| - 1];
      assert last in s && forall x :: x in init ==> x in s;
      TrimmedFixed(init);
      assert TrimmedNames(s) == TrimmedNames(init) + [last] == init + [last] == s;
    }
  }

  lemma {:induction false} UniqFixed(s: seq<string>)
    requires Distinct(s)
    ensures Uniq(s) == s
  {
    if s != [] {
      UniqFixed(s[..|s| - 1]);
      assert s[|s| - 1] !in s[..|s| - 1];
    }
  }

  lemma FilterSnoc(s: seq<string>, x: string, p: string -> bool)
    ensures Filter(s + [x], p) == if p(x) then Filter(s, p) + [x] else Filter(s, p)
  {
    assert (s + [x])[..|s|] == s;
  }

  lemma {:induction false} FilterNormal(s: seq<string>, p: string -> bool)
    requires Normal(s)
    ensures Normal(Filter(s, p)) && |Filter(s, p)| <= |s|
  {
    if s != [] {
      var init := s[..|s| - 1];
      assert forall x :: x in init ==> x in s;
      FilterNormal(init, p);
      FilterIn(init, p);
      assert s[|s| - 1] !in init;
    }
  }

  lemma {:induction false} FilterSame(s: seq<string>, p: string -> bool, q: string -> bool)
    requires forall x :: x in s ==> p(x) == q(x)
    ensures Filter(s, p) == Filter(s, q)
  {
    if s != [] {
      assert s[|s| - 1] in s;
      FilterSame(s[..|s| - 1], p, q);
    }
  }

  function Both(p: string -> bool, q: string -> bool): (r: string -> bool) {
    (x: string) => p(x) && q(x)
  }

  lemma {:induction false} FilterTwice(s: seq<string>, p: string -> bool, q: string -> bool)
    ensures Filter(Filter(s, p), q) == Filter(s, Both(p, q))
  {
    if s != [] {
      var init := Filter(s[..|s| - 1], p);
      FilterTwice(s[..|s| - 1], p, q);
      if p(s[|s| - 1]) { assert (init + [s[|s| - 1]])[..|init|] == init; }
    }
  }

  lemma {:induction false} FilterConcat(a: seq<string>, b: seq<string>, p: string -> bool)
    ensures Filter(a + b, p) == Filter(a, p) + Filter(b, p)
  {
    if b == [] {
      assert a + b == a;
    } else {
      assert (a + b)[..|a + b| - 1] == a + b[..|b| - 1];
      FilterConcat(a, b[..|b| - 1], p);
    }
  }

  lemma {:induction false} FilterNone(s: seq<string>, p: string -> bool)
    requires forall x :: x in s ==> !p(x)
    ensures Filter(s, p) == []
  {
    if s != [] {
      assert s[|s| - 1] in s;
      FilterNone(s[..|s| - 1], p);
    }
  }

  lemma {:induction false} FilterAll(s: seq<string>, p: string -> bool)
    requires forall x :: x in s ==> p(x)
    ensures Filter(s, p) == s
  {
    if s != [] {
      assert s[|s| - 1] in s;
      FilterAll(s[..|s| - 1], p);
    }
  }

  function In(s: seq<string>): (p: string -> bool) {
    (x: string) => x in s
  }

  function NotIn(s: seq<string>): (p: string -> bool) {
    (x: string) => x !in s
  }

  function Merge(base: seq<string>, appended: seq<string>): (r: seq<string>) {
    var kept := Normalize(base);
    kept + Filter(Normalize(appended), NotIn(kept))
  }

  function Subtract(base: seq<string>, removed: seq<string>): (r: seq<string>) {
    var drop := Normalize(removed);
    Filter(Normalize(base), NotIn(drop))
  }

  function Intersect(base: seq<string>, allowed: seq<string>): (r: seq<string>) {
    var keep := Normalize(allowed);
    Filter(Normalize(base), In(keep))
  }

  /** applySelectedModelChanges: add wins over remove. */
  function ApplySelected(origin: seq<string>, add: seq<string>, remove: seq<string>): (r: seq<string>) {
    Subtract(Merge(origin, Normalize(add)), Subtract(Normalize(remove), Normalize(add)))
  }

  lemma DistinctConcat(a: seq<string>, b: seq<string>)
    requires Distinct(a) && Distinct(b) && forall x :: x in b ==> x !in a
    ensures Distinct(a + b)
  {
    forall i, j | 0 <= i < j < |a + b| ensures (a + b)[i] != (a + b)[j] {
      if i < |a| <= j { assert a[i] in a && b[j - |a|] in b; }
    }
  }

  lemma MergeNormal(base: seq<string>, appended: seq<string>)
    ensures Normal(Merge(base, appended))
    ensures forall x :: x in Merge(base, appended) <==> x in Normalize(base) || x in Normalize(appended)
  {
    var kept := Normalize(base);
    var extra := Filter(Normalize(appended), NotIn(kept));
    NormalizeIsNormal(base);
    NormalizeIsNormal(appended);
    FilterIn(Normalize(appended), NotIn(kept));
    FilterNormal(Normalize(appended), NotIn(kept));
    DistinctConcat(kept, extra);
    assert forall x :: x in kept + extra <==> x in kept || x in extra;
  }

  /** A merge is the base, then what is new, each in its own order; the other two keep the order of the base. */
  lemma ListsKeepOrder(base: seq<string>, other: seq<string>)
    ensures Normalize(base) <= Merge(base, other) && KeepsOrder(Merge(base, other), Normalize(base) + Normalize(other))
    ensures KeepsOrder(Subtract(base, other), Normalize(base)) && KeepsOrder(Intersect(base, other), Normalize(base))
  {
    var kept, more := Normalize(base), Normalize(other);
    FilterKeepsOrder(more, NotIn(kept));
    FilterIn(more, NotIn(kept));
    KeepsOrderBehind(kept, Filter(more, NotIn(kept)), more);
    FilterKeepsOrder(kept, NotIn(more));
    FilterKeepsOrder(kept, In(more));
  }

  lemma MergeDisjoint(l: seq<string>, a: seq<string>)
    requires Normal(l) && Normal(a) && forall x :: x in a ==> x !in l
    ensures Merge(l, a) == l + a && Normal(l + a)
  {
    NormalizeNormal(l);
    NormalizeNormal(a);
    FilterAll(a, NotIn(l));
    DistinctConcat(l, a);
  }

  lemma SubtractDisjoint(l: seq<string>, r: seq<string>)
    requires Normal(l) && Normal(r) && forall x :: x in l ==> x !in r
    ensures Subtract(l, r) == l
  {
    NormalizeNormal(l);
    NormalizeNormal(r);
    FilterAll(l, NotIn(r));
  }

  /** New names are appended in order, then the removed ones are dropped. */
  lemma ApplySelectedIs(l: seq<string>, a: seq<string>, r: seq<string>)
    requires Normal(l) && Normal(a) && Normal(r)
    requires (forall x :: x in a ==> x !in l) && (forall x :: x in r ==> x !in a)
    ensures ApplySelected(l, a, r) == Filter(l + a, NotIn(r)) && Normal(ApplySelected(l, a, r))
    ensures forall x :: x in ApplySelected(l, a, r) <==> (x in l || x in a) && x !in r
  {
    NormalizeNormal(a);
    NormalizeNormal(r);
    MergeDisjoint(l, a);
    SubtractDisjoint(r, a);
    NormalizeNormal(l + a);
    FilterNormal(l + a, NotIn(r));
    FilterIn(l + a, NotIn(r));
  }

  /** applySelectedModelChanges on any lists: what is added stays, even if it is to be removed as well. */
  lemma ApplySelectedMembers(l: seq<string>, a: seq<string>, r: seq<string>)
    ensures Normal(ApplySelected(l, a, r))
    ensures forall x :: x in ApplySelected(l, a, r) <==>
              x in Normalize(a) || (x in Normalize(l) && x !in Normalize(r))
  {
    var add, drop := Normalize(a), Subtract(Normalize(r), Normalize(a));
    NormalizeIsNormal(a);
    NormalizeIsNormal(r);
    NormalizeNormal(add);
    NormalizeNormal(Normalize(r));
    MergeNormal(l, add);
    FilterNormal(Normalize(r), NotIn(add));
    FilterIn(Normalize(r), NotIn(add));
    NormalizeNormal(drop);
    var merged := Merge(l, add);
    NormalizeNormal(merged);
    FilterNormal(merged, NotIn(drop));
    FilterIn(merged, NotIn(drop));
  }

  /** mergeModelNames. */
  method MergeModelNames(base: seq<string>, appended: seq<string>) returns (merged: seq<string>)
    ensures merged == Merge(base, appended)
  {
    NormalizeIsNormal(appended);
    merged := AppendUnseen(Normalize(base), Normalize(appended));
  }

  /** The loop of mergeModelNames: append what was not seen. */
  method AppendUnseen(kept: seq<string>, extra: seq<string>) returns (merged: seq<string>)
    requires Distinct(extra)
    ensures merged == kept + Filter(extra, NotIn(kept))
  {
    merged := kept;
    var seen := set model | model in kept;
    for k := 0 to |extra|
      invariant merged == kept + Filter(extra[..k], NotIn(kept))
      invariant forall x :: x in seen <==> x in kept || x in extra[..k]
    {
      assert extra[..k + 1] == extra[..k] + [extra[k]];
      FilterSnoc(extra[..k], extra[k], NotIn(kept));
      assert extra[k] !in extra[..k];
      if extra[k] !in seen {
        seen := seen + {extra[k]};
        merged := merged + [extra[k]];
      }
    }
    assert extra[..|extra|] == extra;
  }
}
