/** The price difference builder of controller/ratio_sync.go: what it compares, and the three passes as functions. */
module PriceDiff {
  import opened Base

  type Model = string

  datatype Field =
    | ModelRatio | CompletionRatio | CacheRatio | CreateCacheRatio | ImageRatio | AudioRatio | AudioCompletionRatio
    | ModelPrice | BillingMode | BillingExpr

  const FIELDS: seq<Field> :=
    [ModelRatio, CompletionRatio, CacheRatio, CreateCacheRatio, ImageRatio, AudioRatio, AudioCompletionRatio,
     ModelPrice, BillingMode, BillingExpr]

  /** A decoded value; composite values are not comparable and are left out. */
  datatype Value = Null | Float(x: real) | Whole(n: int) | Text(s: string) | Bool(b: bool)

  type Prices = map<Field, map<Model, Value>>

  datatype Channel = Channel(name: string, data: Prices)

  datatype Item = Item(current: Value, upstreams: map<string, Value>, confidence: map<string, bool>)

  type Differences = map<Model, map<Field, Item>>

  const SAME := Text("same")
  const EPSILON := 0.000000001

  predicate NearlyEqual(a: real, b: real) {
    if a > b then a - b < EPSILON else b - a < EPSILON
  }

  /** valuesEqual. */
  predicate Equal(a: Value, b: Value) {
    if a.Float? && b.Float? then NearlyEqual(a.x, b.x) else a == b
  }

  predicate IsNumeric(f: Field) {
    f != BillingMode && f != BillingExpr
  }

  /** normalizeSyncValue: whole numbers of numeric fields become floats. */
  function NormalizeValue(f: Field, v: Value): (r: Value) {
    if IsNumeric(f) && v.Whole? then Float(v.n as real) else v
  }

  function Entries(data: Prices, f: Field): (r: map<Model, Value>) {
    if f in data then data[f] else map[]
  }

  function Supplied(data: Prices, f: Field, m: Model): (v: Option<Value>) {
    if m in Entries(data, f) then Some(NormalizeValue(f, Entries(data, f)[m])) else None
  }

  /** The local value, Null when there is none. */
  function Current(local: Prices, f: Field, m: Model): (v: Value) {
    if Supplied(local, f, m).Some? then Supplied(local, f, m).value else Null
  }

  /** What the item shows for one upstream. */
  function Cell(current: Value, supplied: Option<Value>): (v: Value) {
    match supplied
    case None => if current == Null then SAME else Null
    case Some(v) => if Equal(current, v) then SAME else v
  }

  predicate MarksDifference(current: Value, supplied: Option<Value>) {
    if current == Null then Cell(current, supplied) != Null && Cell(current, supplied) != SAME
    else supplied.Some? && !Equal(current, supplied.value)
  }

  function AsFloat(v: Value): (x: Option<real>) {
    match v
    case Float(x) => Some(x)
    case Whole(n) => Some(n as real)
    case _ => None
  }

  /** A ratio of 37.5 with a completion ratio of 1 is the placeholder of an unpriced model. */
  predicate Confident(c: Channel, m: Model) {
    var ratios, completions := Entries(c.data, ModelRatio), Entries(c.data, CompletionRatio);
    !(m in ratios && m in completions && IsAbout(ratios[m], 37.5) && IsAbout(completions[m], 1.0))
  }

  predicate IsAbout(v: Value, x: real) {
    AsFloat(v).Some? && NearlyEqual(AsFloat(v).value, x)
  }

  // ---------------------------------------------------------------- first pass: every item

  function Cells(channels: seq<Channel>, current: Value, f: Field, m: Model): (r: map<string, Value>) {
    if channels == [] then map[]
    else
      var c := channels[|channels| - 1];
      Cells(channels[..|channels| - 1], current, f, m)[c.name := Cell(current, Supplied(c.data, f, m))]
  }

  function Confidences(channels: seq<Channel>, m: Model): (r: map<string, bool>) {
    if channels == [] then map[]
    else
      var c := channels[|channels| - 1];
      Confidences(channels[..|channels| - 1], m)[c.name := Confident(c, m)]
  }

  predicate AnySupplies(channels: seq<Channel>, f: Field, m: Model) {
    exists c :: c in channels && Supplied(c.data, f, m).Some?
  }

  predicate AnyDiffers(channels: seq<Channel>, current: Value, f: Field, m: Model) {
    exists c :: c in channels && MarksDifference(current, Supplied(c.data, f, m))
  }

  predicate Included(local: Prices, channels: seq<Channel>, m: Model, f: Field) {
    if Current(local, f, m) != Null then AnyDiffers(channels, Current(local, f, m), f, m)
    else AnySupplies(channels, f, m)
  }

  function RawItem(local: Prices, channels: seq<Channel>, m: Model, f: Field): (r: Item) {
    Item(Current(local, f, m), Cells(channels, Current(local, f, m), f, m), Confidences(channels, m))
  }

  ghost function RawRow(local: Prices, channels: seq<Channel>, m: Model): (r: map<Field, Item>) {
    map f: Field | Included(local, channels, m, f) :: RawItem(local, channels, m, f)
  }

  /** Nested result of the first pass over the given models. */
  ghost function Raw(local: Prices, channels: seq<Channel>, models: set<Model>): (r: Differences) {
    map m | m in models && RawRow(local, channels, m) != map[] :: RawRow(local, channels, m)
  }

  // ---------------------------------------------------------------- second and third pass

  predicate Counts(v: Value) {
    v != Null && v != SAME
  }

  ghost predicate DiffersIn(d: Differences, name: string) {
    exists m, f :: m in d && f in d[m] && name in d[m][f].upstreams && Counts(d[m][f].upstreams[name])
  }

  function PrunedItem(item: Item, keep: set<string>): (r: Item) {
    var gone := item.upstreams.Keys - keep;
    item.(upstreams := item.upstreams - gone, confidence := item.confidence - gone)
  }

  predicate Survives(item: Item, keep: set<string>) {
    exists name :: name in item.upstreams && name in keep && item.upstreams[name] != SAME
  }

  function PrunedRow(row: map<Field, Item>, keep: set<string>): (r: map<Field, Item>) {
    map f | f in row && Survives(row[f], keep) :: PrunedItem(row[f], keep)
  }

  function Pruned(d: Differences, keep: set<string>): (r: Differences) {
    map m | m in d && PrunedRow(d[m], keep) != map[] :: PrunedRow(d[m], keep)
  }

  // ---------------------------------------------------------------- what the result means

  /** The upstream supplies a value and there is no local one, or a different one. */
  predicate Differs(local: Prices, c: Channel, m: Model, f: Field) {
    var v := Supplied(c.data, f, m);
    v.Some? && (Current(local, f, m) == Null || !Equal(Current(local, f, m), v.value))
  }

  ghost predicate DistinctNames(channels: seq<Channel>) {
    forall i, j :: 0 <= i < j < |channels| ==> channels[i].name != channels[j].name
  }

  /** The upstream supplies a value that differs from the local one and is neither null nor the literal "same". */
  predicate DiffersVisibly(local: Prices, c: Channel, m: Model, f: Field) {
    var v := Supplied(c.data, f, m);
    v.Some? && !Equal(Current(local, f, m), v.value) && Counts(v.value)
  }

  ghost predicate VisibleSomewhere(local: Prices, c: Channel) {
    exists m, f :: DiffersVisibly(local, c, m, f)
  }

  /** The upstream supplies nothing, or null. */
  predicate Silent(c: Channel, m: Model, f: Field) {
    Supplied(c.data, f, m) == None || Supplied(c.data, f, m) == Some(Null)
  }

  lemma CellCounts(local: Prices, c: Channel, m: Model, f: Field)
    ensures Counts(Cell(Current(local, f, m), Supplied(c.data, f, m))) <==> DiffersVisibly(local, c, m, f)
    ensures Cell(Current(local, f, m), Supplied(c.data, f, m)) == Null <==> Current(local, f, m) != Null && Silent(c, m, f)
  {
  }

  ghost function Names(channels: seq<Channel>): (r: set<string>) {
    set c | c in channels :: c.name
  }

  lemma NamesSnoc(channels: seq<Channel>)
    requires channels != []
    ensures var n := |channels| - 1; Names(channels) == Names(channels[..n]) + {channels[n].name}
  {
    var n := |channels| - 1;
    assert channels == channels[..n] + [channels[n]];
  }

  /** Every item of the first pass names every channel. */
  lemma {:induction false} CellNames(channels: seq<Channel>, current: Value, f: Field, m: Model)
    ensures Cells(channels, current, f, m).Keys == Names(channels) == Confidences(channels, m).Keys
  {
    if channels != [] {
      CellNames(channels[..|channels| - 1], current, f, m);
      NamesSnoc(channels);
    }
  }

  lemma {:induction false} CellAt(channels: seq<Channel>, current: Value, f: Field, m: Model, i: nat)
    requires DistinctNames(channels) && i < |channels|
    ensures var c := channels[i];
            && c.name in Cells(channels, current, f, m) && c.name in Confidences(channels, m)
            && Cells(channels, current, f, m)[c.name] == Cell(current, Supplied(c.data, f, m))
            && Confidences(channels, m)[c.name] == Confident(c, m)
  {
    var n := |channels| - 1;
    if i < n {
      var init := channels[..n];
      assert init[i] == channels[i] && channels[i].name != channels[n].name;
      CellAt(init, current, f, m, i);
    }
  }

  /** First pass: an item is included for a local value that some upstream differs from, or for any upstream value. */
  lemma IncludedIs(local: Prices, channels: seq<Channel>, m: Model, f: Field)
    ensures Included(local, channels, m, f) <==> exists c :: c in channels && Differs(local, c, m, f)
  {
  }

  ghost function AllModels(local: Prices, channels: seq<Channel>): (r: set<Model>) {
    (set f, m | f in local && m in local[f] :: m) +
    (set c, f, m | c in channels && f in c.data && m in c.data[f] :: m)
  }

  ghost function AllRaw(local: Prices, channels: seq<Channel>): (r: Differences) {
    Raw(local, channels, AllModels(local, channels))
  }

  ghost function Kept(local: Prices, channels: seq<Channel>): (r: set<string>) {
    set name | name in Names(channels) && DiffersIn(AllRaw(local, channels), name)
  }

  /** buildDifferences. */
  ghost function Build(local: Prices, channels: seq<Channel>): (r: Differences) {
    Pruned(AllRaw(local, channels), Kept(local, channels))
  }

  predicate Lists(d: Differences, m: Model, f: Field) {
    m in d && f in d[m]
  }

  lemma RawAt(local: Prices, channels: seq<Channel>, models: set<Model>, m: Model, f: Field)
    ensures var d := Raw(local, channels, models);
            && (Lists(d, m, f) <==> m in models && Included(local, channels, m, f))
            && (Lists(d, m, f) ==> d[m][f] == RawItem(local, channels, m, f))
  {
    var row := RawRow(local, channels, m);
    assert f in row <==> Included(local, channels, m, f);
  }

  lemma PrunedAt(d: Differences, keep: set<string>, m: Model, f: Field)
    ensures var r := Pruned(d, keep);
            && (Lists(r, m, f) <==> Lists(d, m, f) && Survives(d[m][f], keep))
            && (Lists(r, m, f) ==> r[m][f] == PrunedItem(d[m][f], keep))
  {
    if m in d {
      var row := PrunedRow(d[m], keep);
      assert f in row <==> f in d[m] && Survives(d[m][f], keep);
    }
  }

  lemma SuppliedModel(local: Prices, channels: seq<Channel>, c: Channel, m: Model, f: Field)
    requires c in channels && Supplied(c.data, f, m).Some?
    ensures m in AllModels(local, channels)
  {
    assert c in channels && f in c.data && m in c.data[f];
  }

  lemma RawLists(local: Prices, channels: seq<Channel>, m: Model, f: Field)
    ensures var d := AllRaw(local, channels);
            && (Lists(d, m, f) <==> exists c :: c in channels && Differs(local, c, m, f))
            && (Lists(d, m, f) ==> d[m][f] == RawItem(local, channels, m, f))
  {
    IncludedIs(local, channels, m, f);
    RawAt(local, channels, AllModels(local, channels), m, f);
    if c :| c in channels && Differs(local, c, m, f) {
      SuppliedModel(local, channels, c, m, f);
    }
  }

  /** Second pass: the channels that count are the ones that differ visibly somewhere. */
  lemma KeptIs(local: Prices, channels: seq<Channel>, i: nat)
    requires DistinctNames(channels) && i < |channels|
    ensures channels[i].name in Kept(local, channels) <==> VisibleSomewhere(local, channels[i])
  {
    var d, c := AllRaw(local, channels), channels[i];
    assert c in channels;
    if VisibleSomewhere(local, c) {
      var m, f :| DiffersVisibly(local, c, m, f);
      assert Differs(local, c, m, f);
      RawLists(local, channels, m, f);
      CellAt(channels, Current(local, f, m), f, m, i);
      CellCounts(local, c, m, f);
      assert DiffersIn(d, c.name);
    }
    if c.name in Kept(local, channels) {
      var m, f :| m in d && f in d[m] && c.name in d[m][f].upstreams && Counts(d[m][f].upstreams[c.name]);
      assert Lists(d, m, f);
      RawLists(local, channels, m, f);
      CellAt(channels, Current(local, f, m), f, m, i);
      CellCounts(local, c, m, f);
    }
  }

  /** What keeps an item: a visible difference here, or a silent channel that differs visibly elsewhere. */
  ghost predicate KeepsItem(local: Prices, c: Channel, m: Model, f: Field) {
    || DiffersVisibly(local, c, m, f)
    || (Current(local, f, m) != Null && Silent(c, m, f) && VisibleSomewhere(local, c))
  }

  lemma SurvivesFor(local: Prices, channels: seq<Channel>, m: Model, f: Field, i: nat)
    requires DistinctNames(channels) && i < |channels|
    ensures var cells, c := Cells(channels, Current(local, f, m), f, m), channels[i];
            c.name in cells && (c.name in Kept(local, channels) && cells[c.name] != SAME <==> KeepsItem(local, c, m, f))
  {
    KeptIs(local, channels, i);
    CellAt(channels, Current(local, f, m), f, m, i);
    CellCounts(local, channels[i], m, f);
  }

  lemma SurvivesIs(local: Prices, channels: seq<Channel>, m: Model, f: Field)
    requires DistinctNames(channels)
    ensures Survives(RawItem(local, channels, m, f), Kept(local, channels)) <==>
            exists c :: c in channels && KeepsItem(local, c, m, f)
  {
    if c :| c in channels && KeepsItem(local, c, m, f) { SurvivesBy(local, channels, m, f, c); }
    var cells, keep := Cells(channels, Current(local, f, m), f, m), Kept(local, channels);
    if name :| name in cells && name in keep && cells[name] != SAME { KeptBy(local, channels, m, f, name); }
  }

  lemma SurvivesBy(local: Prices, channels: seq<Channel>, m: Model, f: Field, c: Channel)
    requires DistinctNames(channels) && c in channels && KeepsItem(local, c, m, f)
    ensures Survives(RawItem(local, channels, m, f), Kept(local, channels))
  {
    var i :| 0 <= i < |channels| && channels[i] == c;
    SurvivesFor(local, channels, m, f, i);
  }

  lemma KeptBy(local: Prices, channels: seq<Channel>, m: Model, f: Field, name: string)
    requires DistinctNames(channels)
    requires var cells := Cells(channels, Current(local, f, m), f, m);
             name in cells && name in Kept(local, channels) && cells[name] != SAME
    ensures exists c :: c in channels && KeepsItem(local, c, m, f)
  {
    CellNames(channels, Current(local, f, m), f, m);
    assert name in Names(channels);
    var c :| c in channels && c.name == name;
    var i :| 0 <= i < |channels| && channels[i] == c;
    SurvivesFor(local, channels, m, f, i);
  }

  ghost predicate SomeVisible(local: Prices, channels: seq<Channel>, m: Model, f: Field) {
    exists c :: c in channels && DiffersVisibly(local, c, m, f)
  }

  ghost predicate SomeDiffers(local: Prices, channels: seq<Channel>, m: Model, f: Field) {
    exists c :: c in channels && Differs(local, c, m, f)
  }

  ghost predicate SomeSilent(local: Prices, channels: seq<Channel>, m: Model, f: Field) {
    exists c :: c in channels && Silent(c, m, f) && VisibleSomewhere(local, c)
  }

  lemma SomeKeeps(local: Prices, channels: seq<Channel>, m: Model, f: Field)
    ensures (exists c :: c in channels && KeepsItem(local, c, m, f)) <==>
            SomeVisible(local, channels, m, f) || (Current(local, f, m) != Null && SomeSilent(local, channels, m, f))
    ensures SomeVisible(local, channels, m, f) ==> SomeDiffers(local, channels, m, f)
  {
    if c :| c in channels && DiffersVisibly(local, c, m, f) { assert Differs(local, c, m, f); }
  }

  /**
    Distinct channel names and nothing else: the pruned result lists a model and field exactly when some upstream differs
    there with a value that is neither null nor "same", or when there is a local value that some upstream differs from
    and some upstream that supplies nothing or null there differs visibly elsewhere.
   */
  lemma ListedExactly(local: Prices, channels: seq<Channel>, m: Model, f: Field)
    requires DistinctNames(channels)
    ensures Lists(Build(local, channels), m, f) <==>
            || SomeVisible(local, channels, m, f)
            || (&& Current(local, f, m) != Null
                && SomeDiffers(local, channels, m, f) && SomeSilent(local, channels, m, f))
  {
    RawLists(local, channels, m, f);
    PrunedAt(AllRaw(local, channels), Kept(local, channels), m, f);
    SurvivesIs(local, channels, m, f);
    SomeKeeps(local, channels, m, f);
  }

  /** No null and no literal "same" among the upstream values. */
  ghost predicate PlainValues(c: Channel) {
    forall f, m :: Supplied(c.data, f, m).Some? ==> Counts(Supplied(c.data, f, m).value)
  }

  ghost predicate Plain(channels: seq<Channel>) {
    DistinctNames(channels) && forall c :: c in channels ==> PlainValues(c)
  }

  lemma PlainDiffers(local: Prices, c: Channel, m: Model, f: Field)
    requires PlainValues(c)
    ensures DiffersVisibly(local, c, m, f) <==> Differs(local, c, m, f)
  {
  }

  /** For plain upstream values: listed exactly when some upstream differs from the local value there. */
  lemma ListedExactlyWhenDifferent(local: Prices, channels: seq<Channel>, m: Model, f: Field)
    requires Plain(channels)
    ensures Lists(Build(local, channels), m, f) <==> SomeDiffers(local, channels, m, f)
  {
    ListedExactly(local, channels, m, f);
    forall c | c in channels ensures DiffersVisibly(local, c, m, f) <==> Differs(local, c, m, f) {
      PlainDiffers(local, c, m, f);
    }
  }

  /**
    Every listed item shows the local value and, for exactly the channels that differ visibly somewhere, what they say
    here.
   */
  lemma ListedItem(local: Prices, channels: seq<Channel>, m: Model, f: Field, i: nat)
    requires DistinctNames(channels) && Lists(Build(local, channels), m, f) && i < |channels|
    ensures var item, c := Build(local, channels)[m][f], channels[i];
            && item.current == Current(local, f, m)
            && (c.name in item.upstreams <==> VisibleSomewhere(local, c))
            && (c.name in item.confidence <==> VisibleSomewhere(local, c))
            && (VisibleSomewhere(local, c) ==>
                  item.upstreams[c.name] == Cell(Current(local, f, m), Supplied(c.data, f, m)) &&
                  item.confidence[c.name] == Confident(c, m))
  {
    RawLists(local, channels, m, f);
    PrunedAt(AllRaw(local, channels), Kept(local, channels), m, f);
    CellAt(channels, Current(local, f, m), f, m, i);
    KeptIs(local, channels, i);
  }

  // ---------------------------------------------------------------- what an item shows, in the data it was built from

  /** The entry itself. */
  function Stored(data: Prices, f: Field, m: Model): (v: Option<Value>) {
    if f in data && m in data[f] then Some(data[f][m]) else None
  }

  /** The number an entry stands for; whole numbers are numbers only outside the two billing fields. */
  function Number(f: Field, v: Value): (x: Option<real>) {
    match v
    case Float(x) => Some(x)
    case Whole(n) => if f == BillingMode || f == BillingExpr then None else Some(n as real)
    case _ => None
  }

  /** Numbers agree when less than a billionth lies between them, other entries when they are the same. */
  predicate Agree(f: Field, a: Value, b: Value) {
    var x, y := Number(f, a), Number(f, b);
    if x.Some? && y.Some? then -0.000000001 < x.value - y.value < 0.000000001 else a == b
  }

  function AsShown(f: Field, v: Value): (r: Value) {
    if Number(f, v).Some? then Float(Number(f, v).value) else v
  }

  predicate NumberNear(data: Prices, f: Field, m: Model, x: real) {
    var v := Stored(data, f, m);
    v.Some? && Number(f, v.value).Some? && -0.000000001 < Number(f, v.value).value - x < 0.000000001
  }

  lemma EqualMeans(f: Field, a: Value, b: Value)
    ensures Equal(NormalizeValue(f, a), NormalizeValue(f, b)) <==> Agree(f, a, b)
    ensures NormalizeValue(f, a) == AsShown(f, a)
  {
  }

  /** The upstream differs when it has an entry and the local one is missing, null or disagrees. */
  lemma DiffersMeans(local: Prices, c: Channel, m: Model, f: Field)
    ensures var mine, theirs := Stored(local, f, m), Stored(c.data, f, m);
            Differs(local, c, m, f) <==>
            theirs.Some? && (mine.None? || mine.value == Null || !Agree(f, mine.value, theirs.value))
  {
    if f in local && m in local[f] && f in c.data && m in c.data[f] { EqualMeans(f, local[f][m], c.data[f][m]); }
  }

  /** What the cell of a channel says: nothing, "same", or the channel's own entry as a number or as it is. */
  function Shown(f: Field, mine: Option<Value>, theirs: Option<Value>): (v: Value) {
    var absent := mine.None? || mine.value == Null;
    if theirs.None? then if absent then Text("same") else Null
    else if absent then if theirs.value == Null then Text("same") else AsShown(f, theirs.value)
    else if Agree(f, mine.value, theirs.value) then Text("same") else AsShown(f, theirs.value)
  }

  lemma CellShows(local: Prices, c: Channel, m: Model, f: Field)
    ensures Cell(Current(local, f, m), Supplied(c.data, f, m)) == Shown(f, Stored(local, f, m), Stored(c.data, f, m))
  {
    var mine, theirs := Stored(local, f, m), Stored(c.data, f, m);
    if mine.Some? { EqualMeans(f, mine.value, mine.value); }
    if theirs.Some? {
      EqualMeans(f, theirs.value, theirs.value);
      if mine.Some? { EqualMeans(f, mine.value, theirs.value); }
    }
  }

  lemma CurrentShows(local: Prices, m: Model, f: Field)
    ensures var mine := Stored(local, f, m); Current(local, f, m) == if mine.Some? then AsShown(f, mine.value) else Null
  {
    if f in local && m in local[f] { EqualMeans(f, local[f][m], local[f][m]); }
  }

  lemma ConfidentMeans(c: Channel, m: Model)
    ensures Confident(c, m) <==>
            !(NumberNear(c.data, ModelRatio, m, 37.5) && NumberNear(c.data, CompletionRatio, m, 1.0))
  {
  }

  /**
    Every listed item in terms of the stored entries: the local entry; for each channel that differs visibly somewhere its
    own entry, "same" where it agrees, nothing where it has none; and doubt exactly for a ratio of 37.5 with a completion
    ratio of 1.
   */
  lemma ListedShows(local: Prices, channels: seq<Channel>, m: Model, f: Field, i: nat)
    requires DistinctNames(channels) && Lists(Build(local, channels), m, f) && i < |channels|
    requires VisibleSomewhere(local, channels[i])
    ensures var item, c, mine := Build(local, channels)[m][f], channels[i], Stored(local, f, m);
            && item.current == (if mine.Some? then AsShown(f, mine.value) else Null)
            && c.name in item.upstreams && c.name in item.confidence
            && item.upstreams[c.name] == Shown(f, mine, Stored(c.data, f, m))
            && (item.confidence[c.name] <==>
                  !(NumberNear(c.data, ModelRatio, m, 37.5) && NumberNear(c.data, CompletionRatio, m, 1.0)))
  {
    ListedItem(local, channels, m, f, i);
    CellShows(local, channels[i], m, f);
    CurrentShows(local, m, f);
    ConfidentMeans(channels[i], m);
  }

  /** No other names appear, and no model is listed without a field. */
  lemma NothingElseListed(local: Prices, channels: seq<Channel>, m: Model)
    requires m in Build(local, channels)
    ensures Build(local, channels)[m] != map[]
    ensures forall f :: f in Build(local, channels)[m] ==> Build(local, channels)[m][f].upstreams.Keys <= Names(channels)
  {
    forall f | f in Build(local, channels)[m]
      ensures Build(local, channels)[m][f].upstreams.Keys <= Names(channels)
    {
      PrunedAt(AllRaw(local, channels), Kept(local, channels), m, f);
      RawAt(local, channels, AllModels(local, channels), m, f);
      CellNames(channels, Current(local, f, m), f, m);
    }
  }

  lemma OnlyOne(local: Prices, c: Channel, m: Model, f: Field)
    ensures SomeVisible(local, [c], m, f) <==> DiffersVisibly(local, c, m, f)
    ensures SomeSilent(local, [c], m, f) <==> Silent(c, m, f) && VisibleSomewhere(local, c)
  {
    assert c in [c];
  }

  /** A single upstream: listed where it differs visibly, and otherwise only if it is visible elsewhere and silent here. */
  lemma OneUpstream(local: Prices, c: Channel, m: Model, f: Field)
    ensures DiffersVisibly(local, c, m, f) ==> Lists(Build(local, [c]), m, f)
    ensures Lists(Build(local, [c]), m, f) ==>
            DiffersVisibly(local, c, m, f) || (Silent(c, m, f) && VisibleSomewhere(local, c))
  {
    ListedExactly(local, [c], m, f);
    OnlyOne(local, c, m, f);
  }

  /** Why the literal "same" is excluded: an upstream that supplies it for a model without a local value is not listed. */
  lemma LiteralSameIsHidden(m: Model, name: string)
    ensures var c := Channel(name, map[BillingMode := map[m := SAME]]);
            Differs(map[], c, m, BillingMode) && !Lists(Build(map[], [c]), m, BillingMode)
  {
    OneUpstream(map[], Channel(name, map[BillingMode := map[m := SAME]]), m, BillingMode);
  }

  /** Why null is excluded: an upstream that supplies only null differs from a local value and is not listed. */
  lemma NullIsHidden(m: Model, name: string, v: Value)
    requires v != Null
    ensures var local, c := map[BillingMode := map[m := v]], Channel(name, map[BillingMode := map[m := Null]]);
            Differs(local, c, m, BillingMode) && !Lists(Build(local, [c]), m, BillingMode)
  {
    var local, c := map[BillingMode := map[m := v]], Channel(name, map[BillingMode := map[m := Null]]);
    NeverVisible(local, c, m);
    OneUpstream(local, c, m, BillingMode);
  }

  lemma NeverVisible(local: Prices, c: Channel, m: Model)
    requires c.data == map[BillingMode := map[m := Null]]
    ensures !VisibleSomewhere(local, c)
  {
    forall m', f ensures !DiffersVisibly(local, c, m', f) {}
  }
}
