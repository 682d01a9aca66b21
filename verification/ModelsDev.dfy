/** The models.dev conversion of controller/ratio_sync.go: one price per model out of many providers. */
module ModelsDev {
  import opened Base
  import opened Strings
  import opened PriceDiff

  /** A JSON number as float64: NaN and infinities are possible values of the type. */
  datatype Number = Finite(x: real) | NotFinite

  datatype Cost = Cost(input: Option<Number>, output: Option<Number>, cacheRead: Option<Number>)

  datatype Candidate = Candidate(provider: string, input: real, output: Option<real>, cacheRead: Option<real>)

  type Upstream = map<string, map<Model, Cost>>

  /** isValidNonNegativeCost. */
  predicate IsValid(v: Number) {
    v.Finite? && v.x >= 0.0
  }

  /** buildModelsDevCandidate. */
  function BuildCandidate(provider: string, cost: Cost): (r: Option<Candidate>) {
    if cost.input.None? || !IsValid(cost.input.value) then None
    else if cost.output.Some? && !IsValid(cost.output.value) then None
    else
      var input := cost.input.value.x;
      var output := if cost.output.Some? then Some(cost.output.value.x) else None;
      if input == 0.0 && output.Some? && output.value > 0.0 then None
      else
        var cacheRead := if cost.cacheRead.Some? && IsValid(cost.cacheRead.value)
                         then Some(cost.cacheRead.value.x) else None;
        Some(Candidate(provider, input, output, cacheRead))
  }

  /** shouldReplaceModelsDevCandidate. */
  predicate ShouldReplace(current: Candidate, next: Candidate) {
    if (current.input > 0.0) != (next.input > 0.0) then next.input > 0.0
    else if next.input > 0.0 && !NearlyEqual(next.input, current.input) then next.input < current.input
    else Less(next.provider, current.provider)
  }

  /** The selection among the candidates for one model, in the order of the providers. */
  function Select(cs: seq<Candidate>): (r: Candidate)
    requires cs != []
  {
    if |cs| == 1 then cs[0]
    else
      var current, next := Select(cs[..|cs| - 1]), cs[|cs| - 1];
      if ShouldReplace(current, next) then next else current
  }

  // ---------------------------------------------------------------- what is selected

  ghost predicate ByProvider(cs: seq<Candidate>) {
    forall i, j :: 0 <= i < j < |cs| ==> Less(cs[i].provider, cs[j].provider)
  }

  ghost predicate NonNegative(cs: seq<Candidate>) {
    forall c :: c in cs ==> c.input >= 0.0
  }

  lemma {:induction false} SelectIn(cs: seq<Candidate>)
    requires cs != []
    ensures Select(cs) in cs
  {
    if |cs| > 1 { SelectIn(cs[..|cs| - 1]); }
  }

  /** Providers come in increasing order, so the tie-breaker never replaces anything. */
  lemma NoTieBreak(cs: seq<Candidate>)
    requires ByProvider(cs) && |cs| > 1
    ensures !Less(cs[|cs| - 1].provider, Select(cs[..|cs| - 1]).provider)
  {
    var n := |cs| - 1;
    var current := Select(cs[..n]);
    SelectIn(cs[..n]);
    var i :| 0 <= i < n && cs[..n][i] == current;
    assert Less(cs[i].provider, cs[n].provider);
    LessIrreflexive(cs[n].provider);
    if Less(cs[n].provider, cs[i].provider) { LessTransitive(cs[n].provider, cs[i].provider, cs[n].provider); }
  }

  ghost predicate AllZero(cs: seq<Candidate>) {
    forall c :: c in cs ==> c.input == 0.0
  }

  /** No positive candidate is cheaper than the chosen one by epsilon or more. */
  ghost predicate WithinEpsilon(chosen: real, cs: seq<Candidate>) {
    forall c :: c in cs && c.input > 0.0 ==> chosen < c.input + EPSILON
  }

  /**
    The selected candidate has zero input only if all of them do; otherwise it is positive and less than epsilon above
    every positive one, although nearly-equal is not transitive.
   */
  lemma {:induction false} SelectIsCheapest(cs: seq<Candidate>)
    requires cs != [] && ByProvider(cs) && NonNegative(cs)
    ensures Select(cs) in cs
    ensures Select(cs).input == 0.0 <==> AllZero(cs)
    ensures Select(cs).input > 0.0 ==> WithinEpsilon(Select(cs).input, cs)
  {
    SelectIn(cs);
    if |cs| > 1 {
      var init, next := cs[..|cs| - 1], cs[|cs| - 1];
      assert cs == init + [next] && next in cs;
      assert forall c :: c in init ==> c in cs;
      SelectIsCheapest(init);
      NoTieBreak(cs);
      ReplaceKeepsZero(init, Select(init), next);
      ReplaceKeepsCheap(init, Select(init), next);
    }
  }

  /** The current or the next candidate, whichever the comparison leaves, when the providers are in order. */
  function Better(current: Candidate, next: Candidate): (r: Candidate) {
    if ShouldReplace(current, next) then next else current
  }

  lemma ReplaceKeepsZero(cs: seq<Candidate>, current: Candidate, next: Candidate)
    requires current.input >= 0.0 && next.input >= 0.0 && (current.input == 0.0 <==> AllZero(cs))
    ensures Better(current, next).input == 0.0 <==> AllZero(cs + [next])
  {
    assert AllZero(cs + [next]) <==> AllZero(cs) && next.input == 0.0 by {
      assert forall c :: c in cs + [next] <==> c in cs || c == next;
    }
  }

  lemma ReplaceKeepsCheap(cs: seq<Candidate>, current: Candidate, next: Candidate)
    requires current.input >= 0.0 && next.input >= 0.0 && !Less(next.provider, current.provider)
    requires current.input > 0.0 ==> WithinEpsilon(current.input, cs)
    requires current.input == 0.0 ==> AllZero(cs)
    ensures var r := Better(current, next); r.input > 0.0 ==> WithinEpsilon(r.input, cs + [next])
  {
    assert forall c :: c in cs + [next] <==> c in cs || c == next;
  }

  // ---------------------------------------------------------------- when it is the cheapest

  function Inputs(cs: seq<Candidate>): (r: seq<real>)
    ensures |r| == |cs| && forall i :: 0 <= i < |cs| ==> r[i] == cs[i].input
  {
    seq(|cs|, i requires 0 <= i < |cs| => cs[i].input)
  }

  ghost predicate IsCheapest(min: real, inputs: seq<real>) {
    min > 0.0 && min in inputs && forall x :: x in inputs && x > 0.0 ==> min <= x
  }

  /** Every assignment of these prices to providers selects the given price. */
  ghost predicate SelectedInEveryOrder(inputs: seq<real>, price: real) {
    forall cs: seq<Candidate> :: cs != [] && ByProvider(cs) && multiset(Inputs(cs)) == multiset(inputs) ==>
      Select(cs).input == price
  }

  lemma {:induction false} FirstStays(cs: seq<Candidate>)
    requires cs != [] && ByProvider(cs) && cs[0].input > 0.0
    requires forall c :: c in cs && c.input > 0.0 ==> cs[0].input < c.input + EPSILON
    ensures Select(cs) == cs[0]
  {
    if |cs| > 1 {
      var init, next := cs[..|cs| - 1], cs[|cs| - 1];
      assert next in cs && forall c :: c in init ==> c in cs;
      FirstStays(init);
      NoTieBreak(cs);
    }
  }

  function Letters(n: nat): (s: string)
    ensures |s| == n
  {
    if n == 0 then "" else "a" + Letters(n - 1)
  }

  lemma {:induction false} LettersIncrease(i: nat, j: nat)
    requires i < j
    ensures Less(Letters(i), Letters(j))
  {
    if i > 0 {
      LettersIncrease(i - 1, j - 1);
      assert Letters(i)[1..] == Letters(i - 1) && Letters(j)[1..] == Letters(j - 1);
    }
  }

  /** Some providers with these prices, in this order. */
  lemma Offer(inputs: seq<real>) returns (cs: seq<Candidate>)
    ensures ByProvider(cs) && Inputs(cs) == inputs
  {
    cs := seq(|inputs|, i requires 0 <= i < |inputs| => Candidate(Letters(i), inputs[i], None, None));
    forall i, j | 0 <= i < j < |cs| ensures Less(cs[i].provider, cs[j].provider) { LettersIncrease(i, j); }
  }

  lemma ToFront(inputs: seq<real>, i: nat)
    requires i < |inputs|
    ensures multiset([inputs[i]] + (inputs[..i] + inputs[i + 1..])) == multiset(inputs)
  {
    assert inputs == inputs[..i] + [inputs[i]] + inputs[i + 1..];
  }

  lemma InputIn(cs: seq<Candidate>, inputs: seq<real>)
    requires multiset(Inputs(cs)) == multiset(inputs)
    ensures forall c :: c in cs ==> c.input in inputs
    ensures forall x :: x in inputs ==> exists c :: c in cs && c.input == x
  {
    forall c | c in cs ensures c.input in inputs {
      var i :| 0 <= i < |cs| && cs[i] == c;
      assert Inputs(cs)[i] in multiset(Inputs(cs));
      assert c.input in multiset(inputs);
    }
    forall x | x in inputs ensures exists c :: c in cs && c.input == x {
      assert x in multiset(Inputs(cs));
      var i :| 0 <= i < |cs| && Inputs(cs)[i] == x;
      assert cs[i] in cs;
    }
  }

  lemma CheapestIsSelected(inputs: seq<real>, min: real, cs: seq<Candidate>)
    requires (forall x :: x in inputs ==> x >= 0.0) && IsCheapest(min, inputs)
    requires forall x :: x in inputs ==> !(min < x < min + EPSILON)
    requires cs != [] && ByProvider(cs) && multiset(Inputs(cs)) == multiset(inputs)
    ensures Select(cs).input == min
  {
    InputIn(cs, inputs);
    SelectIsCheapest(cs);
    var c :| c in cs && c.input == min;
    assert Select(cs).input in inputs;
  }

  lemma DearerFirstIsSelected(inputs: seq<real>, min: real, i: nat)
    requires IsCheapest(min, inputs) && i < |inputs| && min < inputs[i] < min + EPSILON
    ensures !SelectedInEveryOrder(inputs, min)
  {
    var order := [inputs[i]] + (inputs[..i] + inputs[i + 1..]);
    ToFront(inputs, i);
    var cs := Offer(order);
    InputIn(cs, inputs);
    assert Inputs(cs)[0] == inputs[i];
    FirstStays(cs);
    assert multiset(Inputs(cs)) == multiset(inputs) && Select(cs).input != min;
  }

  /**
    The documented policy, the cheapest non-zero input, holds for every naming of the providers exactly when no other
    price lies less than epsilon above the cheapest.
   */
  lemma CheapestInEveryOrder(inputs: seq<real>, min: real)
    requires (forall x :: x in inputs ==> x >= 0.0) && IsCheapest(min, inputs)
    ensures SelectedInEveryOrder(inputs, min) <==> forall x :: x in inputs ==> !(min < x < min + EPSILON)
  {
    if x :| x in inputs && min < x < min + EPSILON {
      var i :| 0 <= i < |inputs| && inputs[i] == x;
      DearerFirstIsSelected(inputs, min, i);
    } else {
      forall cs: seq<Candidate> | cs != [] && ByProvider(cs) && multiset(Inputs(cs)) == multiset(inputs)
        ensures Select(cs).input == min
      {
        CheapestIsSelected(inputs, min, cs);
      }
    }
  }

  /** Why the providers are sorted: in another order the tie-breaker can drift away from the cheapest price. */
  lemma UnsortedSelectionDrifts()
    ensures var c0 := Candidate("c", 1.0, None, None);
            var c1 := Candidate("b", 1.0 + 0.0000000006, None, None);
            var c2 := Candidate("a", 1.0 + 0.0000000012, None, None);
            Select([c0, c1, c2]) == c2 && !WithinEpsilon(c2.input, [c0, c1, c2])
  {
    var c0, c1, c2 := Candidate("c", 1.0, None, None), Candidate("b", 1.0 + 0.0000000006, None, None),
                      Candidate("a", 1.0 + 0.0000000012, None, None);
    assert [c0, c1, c2][..2] == [c0, c1] && [c0, c1][..1] == [c0];
    assert Select([c0]) == c0 && Select([c0, c1]) == c1;
    assert c0 in [c0, c1, c2];
  }

  // ---------------------------------------------------------------- the conversion loop

  /** The valid candidates for a model, provider by provider. */
  function CandidatesFor(data: Upstream, providers: seq<string>, m: Model): (cs: seq<Candidate>) {
    if providers == [] then []
    else
      var p := providers[|providers| - 1];
      var init := CandidatesFor(data, providers[..|providers| - 1], m);
      var offer := OfferOf(data, p, m);
      if offer.Some? then init + [offer.value] else init
  }

  function OfferOf(data: Upstream, p: string, m: Model): (r: Option<Candidate>) {
    if p in data && m in data[p] then BuildCandidate(p, data[p][m]) else None
  }

  lemma {:induction false} CandidatesAre(data: Upstream, providers: seq<string>, m: Model)
    requires Increasing(providers)
    ensures var cs := CandidatesFor(data, providers, m);
            && ByProvider(cs) && NonNegative(cs)
            && (forall c :: c in cs ==> c.provider in providers && OfferOf(data, c.provider, m) == Some(c))
            && (forall p :: p in providers && OfferOf(data, p, m).Some? ==> OfferOf(data, p, m).value in cs)
  {
    if providers != [] {
      var init, p := providers[..|providers| - 1], providers[|providers| - 1];
      CandidatesAre(data, init, m);
      assert providers == init + [p];
      var cs := CandidatesFor(data, init, m);
      forall i | 0 <= i < |cs| ensures Less(cs[i].provider, p) {
        assert cs[i] in cs;
        var k :| 0 <= k < |init| && init[k] == cs[i].provider;
        assert Less(providers[k], providers[|providers| - 1]);
      }
    }
  }

  /** The result of the conversion loop for one enumeration of the providers. */
  ghost predicate IsSelection(data: Upstream, providers: seq<string>, selected: map<Model, Candidate>) {
    forall m ::
      && (m in selected <==> CandidatesFor(data, providers, m) != [])
      && (m in selected ==> selected[m] == Select(CandidatesFor(data, providers, m)))
  }

  /** The selection does not depend on the order in which the map of providers is visited. */
  lemma SelectionIsDeterministic(data: Upstream, ps: seq<string>, qs: seq<string>,
                                 a: map<Model, Candidate>, b: map<Model, Candidate>)
    requires Increasing(ps) && Enumerates(ps, data.Keys) && IsSelection(data, ps, a)
    requires Increasing(qs) && Enumerates(qs, data.Keys) && IsSelection(data, qs, b)
    ensures a == b
  {
    SortedUnique(ps, qs, data.Keys);
    assert forall m :: m in a <==> m in b;
  }

  /** What the selection means for a model, over the whole upstream document. */
  lemma SelectionMeans(data: Upstream, ps: seq<string>, selected: map<Model, Candidate>, m: Model)
    requires Increasing(ps) && Enumerates(ps, data.Keys) && IsSelection(data, ps, selected)
    ensures m in selected <==> exists p :: OfferOf(data, p, m).Some?
    ensures m in selected ==> OfferOf(data, selected[m].provider, m) == Some(selected[m])
    ensures m in selected ==> forall p :: OfferOf(data, p, m).Some? ==>
              var price := OfferOf(data, p, m).value.input;
              && (selected[m].input == 0.0 ==> price == 0.0)
              && (price > 0.0 ==> 0.0 < selected[m].input < price + EPSILON)
  {
    var cs := CandidatesFor(data, ps, m);
    CandidatesAre(data, ps, m);
    if cs != [] {
      assert cs[0] in cs;
      SelectIsCheapest(cs);
    }
    forall p | OfferOf(data, p, m).Some? ensures p in ps && OfferOf(data, p, m).value in cs {
      assert p in data.Keys;
    }
  }

  // ---------------------------------------------------------------- in terms of the document

  /**
    Provider p offers model m at this input cost: the input is there and not negative, the output is absent or not
    negative, and a free input does not come with an output that costs something.
   */
  predicate Offers(data: Upstream, p: string, m: Model, input: real) {
    && p in data && m in data[p]
    && data[p][m].input == Some(Finite(input)) && input >= 0.0
    && match data[p][m].output
       case None => true
       case Some(Finite(y)) => y >= 0.0 && (input == 0.0 ==> y == 0.0)
       case Some(NotFinite) => false
  }

  lemma OfferMeans(data: Upstream, p: string, m: Model)
    ensures OfferOf(data, p, m).Some? <==> exists input :: Offers(data, p, m, input)
    ensures OfferOf(data, p, m).Some? ==>
              var c := OfferOf(data, p, m).value;
              && c.provider == p && Offers(data, p, m, c.input)
              && data[p][m].output == (if c.output.Some? then Some(Finite(c.output.value)) else None)
              && (c.cacheRead.Some? ==>
                    c.cacheRead.value >= 0.0 && data[p][m].cacheRead == Some(Finite(c.cacheRead.value)))
              && (forall x :: data[p][m].cacheRead == Some(Finite(x)) && x >= 0.0 ==> c.cacheRead == Some(x))
  {
    if p in data && m in data[p] && data[p][m].input.Some? && data[p][m].input.value.Finite? {
      var input := data[p][m].input.value.x;
      assert OfferOf(data, p, m).Some? <==> Offers(data, p, m, input);
    }
  }

  lemma OffersIs(data: Upstream, p: string, m: Model, input: real)
    requires Offers(data, p, m, input)
    ensures OfferOf(data, p, m).Some? && OfferOf(data, p, m).value.input == input
  {
    OfferMeans(data, p, m);
  }

  /** Earlier candidates with a price are dearer than the selected one, and a free one is selected only in first place. */
  ghost predicate Leads(cs: seq<Candidate>, k: nat)
    requires k < |cs|
  {
    && (forall j :: 0 <= j < k && cs[j].input > 0.0 ==> cs[j].input > cs[k].input)
    && (cs[k].input == 0.0 ==> k == 0)
  }

  lemma NewLeads(init: seq<Candidate>, next: Candidate)
    requires init != [] && ByProvider(init) && NonNegative(init) && next.input >= 0.0
    requires ShouldReplace(Select(init), next) && !Less(next.provider, Select(init).provider)
    ensures Leads(init + [next], |init|)
  {
    SelectIsCheapest(init);
    var cs, n := init + [next], |init|;
    assert cs[n] == next;
    forall j | 0 <= j < n && cs[j].input > 0.0 ensures cs[j].input > next.input { assert cs[j] in init; }
  }

  lemma LeadsStays(init: seq<Candidate>, next: Candidate, k: nat)
    requires k < |init| && Leads(init, k)
    ensures Leads(init + [next], k)
  {
    var cs := init + [next];
    assert forall j :: 0 <= j <= k ==> cs[j] == init[j];
  }

  lemma PrefixFacts(cs: seq<Candidate>, n: nat)
    requires n < |cs| && ByProvider(cs) && NonNegative(cs)
    ensures ByProvider(cs[..n]) && NonNegative(cs[..n]) && cs[n].input >= 0.0
  {
    assert cs[n] in cs && forall c :: c in cs[..n] ==> c in cs;
  }

  lemma {:induction false} SelectLeads(cs: seq<Candidate>) returns (k: nat)
    requires cs != [] && ByProvider(cs) && NonNegative(cs)
    ensures k < |cs| && Select(cs) == cs[k] && Leads(cs, k)
  {
    if |cs| == 1 {
      k := 0;
    } else {
      var n := |cs| - 1;
      assert cs == cs[..n] + [cs[n]];
      NoTieBreak(cs);
      PrefixFacts(cs, n);
      if ShouldReplace(Select(cs[..n]), cs[n]) {
        k := n;
        NewLeads(cs[..n], cs[n]);
      } else {
        k := SelectLeads(cs[..n]);
        LeadsStays(cs[..n], cs[n], k);
      }
    }
  }

  lemma ProviderOrder(cs: seq<Candidate>, j: nat, k: nat)
    requires ByProvider(cs) && j < |cs| && k < |cs| && Less(cs[j].provider, cs[k].provider)
    ensures j < k
  {
    LessIrreflexive(cs[j].provider);
    if k < j { LessTransitive(cs[j].provider, cs[k].provider, cs[j].provider); }
  }

  /**
    The conversion in terms of the document. A model is selected exactly when some provider offers it. The selected entry
    is that provider's: its input, its output if there is one, its cache price if that is valid. No provider offers the
    model for less by a billionth or more, a free offer is selected only if all are free, and of equal prices the first
    provider's counts.
   */
  lemma SelectionOfDocument(data: Upstream, ps: seq<string>, selected: map<Model, Candidate>, m: Model)
    requires Increasing(ps) && Enumerates(ps, data.Keys) && IsSelection(data, ps, selected)
    ensures m in selected <==> exists p, input :: Offers(data, p, m, input)
    ensures m in selected ==>
              var c := selected[m];
              && Offers(data, c.provider, m, c.input)
              && data[c.provider][m].output == (if c.output.Some? then Some(Finite(c.output.value)) else None)
              && (forall x :: c.cacheRead == Some(x) <==> data[c.provider][m].cacheRead == Some(Finite(x)) && x >= 0.0)
              && (forall p, input :: Offers(data, p, m, input) && input > 0.0 ==>
                    0.0 < c.input < input + 0.000000001 && (Less(p, c.provider) ==> c.input < input))
              && (forall p, input :: Offers(data, p, m, input) && c.input == 0.0 ==>
                    input == 0.0 && !Less(p, c.provider))
  {
    SelectionMeans(data, ps, selected, m);
    if m in selected {
      OfferMeans(data, selected[m].provider, m);
      forall p, input | Offers(data, p, m, input)
        ensures input > 0.0 ==>
                  && 0.0 < selected[m].input < input + 0.000000001
                  && (Less(p, selected[m].provider) ==> selected[m].input < input)
        ensures selected[m].input == 0.0 ==> input == 0.0 && !Less(p, selected[m].provider)
      {
        OffersIs(data, p, m, input);
        EarlierOffer(data, ps, m, p);
      }
    } else {
      forall p, input | Offers(data, p, m, input) ensures false { OffersIs(data, p, m, input); }
    }
  }

  lemma EarlierOffer(data: Upstream, ps: seq<string>, m: Model, p: string)
    requires Increasing(ps) && Enumerates(ps, data.Keys) && OfferOf(data, p, m).Some?
    ensures var cs, offer := CandidatesFor(data, ps, m), OfferOf(data, p, m).value;
            && cs != []
            && (Less(p, Select(cs).provider) && offer.input > 0.0 ==> Select(cs).input < offer.input)
            && (Less(p, Select(cs).provider) ==> Select(cs).input != 0.0)
  {
    var cs, offer := CandidatesFor(data, ps, m), OfferOf(data, p, m).value;
    CandidatesAre(data, ps, m);
    OfferMeans(data, p, m);
    assert p in data.Keys && offer in cs;
    var k := SelectLeads(cs);
    var j :| 0 <= j < |cs| && cs[j] == offer;
    if Less(p, cs[k].provider) { ProviderOrder(cs, j, k); }
  }

  lemma SelectSnoc(cs: seq<Candidate>, next: Candidate)
    ensures Select(cs + [next]) ==
            if cs == [] || ShouldReplace(Select(cs), next) then next else Select(cs)
  {
    assert (cs + [next])[..|cs|] == cs;
  }

  lemma CandidatesSnoc(data: Upstream, ps: seq<string>, k: nat, m: Model)
    requires k < |ps|
    ensures CandidatesFor(data, ps[..k + 1], m) ==
            CandidatesFor(data, ps[..k], m) + if OfferOf(data, ps[k], m).Some? then [OfferOf(data, ps[k], m).value] else []
  {
    assert ps[..k + 1][..k] == ps[..k];
  }

  /** What one provider does to the entry of one model. */
  function Considered(current: Option<Candidate>, offer: Option<Candidate>): (r: Option<Candidate>) {
    if offer.None? then current
    else if current.None? || ShouldReplace(current.value, offer.value) then offer
    else current
  }

  function Entry(selected: map<Model, Candidate>, m: Model): (r: Option<Candidate>) {
    if m in selected then Some(selected[m]) else None
  }

  /** The inner loop over the models of one provider. */
  method ConsiderProvider(data: Upstream, p: string, before: map<Model, Candidate>)
    returns (selected: map<Model, Candidate>)
    requires p in data
    ensures forall m :: Entry(selected, m) == Considered(Entry(before, m), OfferOf(data, p, m))
  {
    selected := before;
    var names := SortKeys(data[p].Keys);
    for j := 0 to |names|
      invariant forall m :: Entry(selected, m) ==
                  if m in names[..j] then Considered(Entry(before, m), OfferOf(data, p, m)) else Entry(before, m)
    {
      var m := names[j];
      assert m in names;
      assert names[..j + 1] == names[..j] + [m];
      NotEarlier(names, j);
      assert Entry(selected, m) == Entry(before, m);
      var candidate := BuildCandidate(p, data[p][m]);
      if candidate.Some? && (m !in selected || ShouldReplace(selected[m], candidate.value)) {
        selected := selected[m := candidate.value];
      }
    }
    assert names[..|names|] == names;
  }

  lemma NotEarlier(names: seq<string>, j: nat)
    requires Increasing(names) && j < |names|
    ensures names[j] !in names[..j]
  {
    LessIrreflexive(names[j]);
  }

  /** The selection loop of convertModelsDevToRatioData. */
  method SelectCandidates(data: Upstream) returns (selected: map<Model, Candidate>)
    ensures forall ps :: Increasing(ps) && Enumerates(ps, data.Keys) ==> IsSelection(data, ps, selected)
    ensures exists ps :: Increasing(ps) && Enumerates(ps, data.Keys)
  {
    var providers := SortKeys(data.Keys);
    selected := map[];
    for k := 0 to |providers|
      invariant IsSelection(data, providers[..k], selected)
    {
      assert providers[k] in providers;
      var next := ConsiderProvider(data, providers[k], selected);
      SelectionStep(data, providers, k, selected, next);
      selected := next;
    }
    assert providers[..|providers|] == providers;
    forall ps | Increasing(ps) && Enumerates(ps, data.Keys) ensures IsSelection(data, ps, selected) {
      SortedUnique(ps, providers, data.Keys);
    }
  }

  lemma SelectionStep(data: Upstream, ps: seq<string>, k: nat, selected: map<Model, Candidate>,
                      next: map<Model, Candidate>)
    requires k < |ps| && IsSelection(data, ps[..k], selected)
    requires forall m :: Entry(next, m) == Considered(Entry(selected, m), OfferOf(data, ps[k], m))
    ensures IsSelection(data, ps[..k + 1], next)
  {
    forall m
      ensures m in next <==> CandidatesFor(data, ps[..k + 1], m) != []
      ensures m in next ==> next[m] == Select(CandidatesFor(data, ps[..k + 1], m))
    {
      SelectionStepAt(data, ps, k, m, Entry(selected, m), Entry(next, m));
    }
  }

  lemma SelectionStepAt(data: Upstream, ps: seq<string>, k: nat, m: Model, e: Option<Candidate>, e': Option<Candidate>)
    requires k < |ps| && e' == Considered(e, OfferOf(data, ps[k], m))
    requires var cs := CandidatesFor(data, ps[..k], m); e == if cs == [] then None else Some(Select(cs))
    ensures var cs := CandidatesFor(data, ps[..k + 1], m); e' == if cs == [] then None else Some(Select(cs))
  {
    var cs, offer := CandidatesFor(data, ps[..k], m), OfferOf(data, ps[k], m);
    CandidatesSnoc(data, ps, k, m);
    if offer.Some? { SelectSnoc(cs, offer.value); } else { assert cs + [] == cs; }
  }
}
