/** buildDifferences of controller/ratio_sync.go as it runs: maps are filled pass by pass and pruned in place. */
module PriceDiffBuilder {
  import opened PriceDiff

  lemma AllFields(f: Field)
    ensures f in FIELDS
  {
    assert FIELDS[0] == ModelRatio && FIELDS[1] == CompletionRatio && FIELDS[2] == CacheRatio;
    assert FIELDS[3] == CreateCacheRatio && FIELDS[4] == ImageRatio && FIELDS[5] == AudioRatio;
    assert FIELDS[6] == AudioCompletionRatio && FIELDS[7] == ModelPrice && FIELDS[8] == BillingMode;
    assert FIELDS[9] == BillingExpr;
    match f
    case ModelRatio => case CompletionRatio => case CacheRatio => case CreateCacheRatio => case ImageRatio =>
    case AudioRatio => case AudioCompletionRatio => case ModelPrice => case BillingMode => case BillingExpr =>
  }

  // ---------------------------------------------------------------- the models

  ghost function ModelsIn(data: Prices): (r: set<Model>) {
    set f, m | f in data && m in data[f] :: m
  }

  method PricedModels(data: Prices) returns (models: set<Model>)
    ensures models == ModelsIn(data)
  {
    models := {};
    for k := 0 to |FIELDS|
      invariant forall m :: m in models <==> exists i :: 0 <= i < k && m in Entries(data, FIELDS[i])
    {
      models := models + Entries(data, FIELDS[k]).Keys;
    }
    forall m ensures m in models <==> m in ModelsIn(data) {
      if m in ModelsIn(data) {
        var f :| f in data && m in data[f];
        AllFields(f);
        var i :| 0 <= i < |FIELDS| && FIELDS[i] == f;
        assert m in Entries(data, FIELDS[i]);
      }
    }
  }

  lemma AllModelsSnoc(local: Prices, channels: seq<Channel>, c: Channel)
    ensures AllModels(local, []) == ModelsIn(local)
    ensures AllModels(local, channels + [c]) == AllModels(local, channels) + ModelsIn(c.data)
  {
    assert forall x :: x in channels + [c] <==> x in channels || x == c;
  }

  method CollectModels(local: Prices, channels: seq<Channel>) returns (models: set<Model>)
    ensures models == AllModels(local, channels)
  {
    models := PricedModels(local);
    assert ModelsIn(local) == AllModels(local, []);
    for k := 0 to |channels|
      invariant models == AllModels(local, channels[..k])
    {
      var more := PricedModels(channels[k].data);
      AllModelsSnoc(local, channels[..k], channels[k]);
      assert channels[..k + 1] == channels[..k] + [channels[k]];
      models := models + more;
    }
    assert channels[..|channels|] == channels;
  }

  // ---------------------------------------------------------------- first pass

  /** What the inner loop over the channels collects for one model and field. */
  datatype Filled = Filled(cells: map<string, Value>, confidence: map<string, bool>, supplied: bool, differs: bool)

  function Fill(channels: seq<Channel>, n: nat, current: Value, f: Field, m: Model): (r: Filled)
    requires n <= |channels|
  {
    if n == 0 then Filled(map[], map[], false, false)
    else AddCell(Fill(channels, n - 1, current, f, m), channels[n - 1], current, f, m)
  }

  function AddCell(r: Filled, c: Channel, current: Value, f: Field, m: Model): (r': Filled) {
    var v := Supplied(c.data, f, m);
    Filled(r.cells[c.name := Cell(current, v)], r.confidence[c.name := Confident(c, m)],
           r.supplied || v.Some?, r.differs || MarksDifference(current, v))
  }

  lemma {:induction false} FillCells(channels: seq<Channel>, n: nat, current: Value, f: Field, m: Model)
    requires n <= |channels|
    ensures Fill(channels, n, current, f, m).cells == Cells(channels[..n], current, f, m)
    ensures Fill(channels, n, current, f, m).confidence == Confidences(channels[..n], m)
  {
    if n > 0 {
      FillCells(channels, n - 1, current, f, m);
      CellsSnoc(channels, n - 1, current, f, m);
    }
  }

  lemma {:induction false} FillFlags(channels: seq<Channel>, n: nat, current: Value, f: Field, m: Model)
    requires n <= |channels|
    ensures Fill(channels, n, current, f, m).supplied == AnySupplies(channels[..n], f, m)
    ensures Fill(channels, n, current, f, m).differs == AnyDiffers(channels[..n], current, f, m)
  {
    if n > 0 {
      FillFlags(channels, n - 1, current, f, m);
      AnySnoc(channels, n - 1, current, f, m);
    }
  }

  method FillItem(channels: seq<Channel>, current: Value, f: Field, m: Model) returns (r: Filled)
    ensures r == Filled(Cells(channels, current, f, m), Confidences(channels, m),
                        AnySupplies(channels, f, m), AnyDiffers(channels, current, f, m))
  {
    r := FillLoop(channels, current, f, m);
    FillCells(channels, |channels|, current, f, m);
    FillFlags(channels, |channels|, current, f, m);
    assert channels[..|channels|] == channels;
  }

  method FillLoop(channels: seq<Channel>, current: Value, f: Field, m: Model) returns (r: Filled)
    ensures r == Fill(channels, |channels|, current, f, m)
  {
    r := Filled(map[], map[], false, false);
    for k := 0 to |channels|
      invariant r == Fill(channels, k, current, f, m)
    {
      r := FillOne(r, channels[k], current, f, m);
    }
  }

  method FillOne(before: Filled, c: Channel, current: Value, f: Field, m: Model) returns (r: Filled)
    ensures r == AddCell(before, c, current, f, m)
  {
    var value, differs, supplies := FillCell(c, current, f, m);
    r := Filled(before.cells[c.name := value], before.confidence[c.name := Confident(c, m)],
                before.supplied || supplies, before.differs || differs);
  }

  lemma CellsSnoc(channels: seq<Channel>, k: nat, current: Value, f: Field, m: Model)
    requires k < |channels|
    ensures var c := channels[k];
            && Cells(channels[..k + 1], current, f, m) ==
                 Cells(channels[..k], current, f, m)[c.name := Cell(current, Supplied(c.data, f, m))]
            && Confidences(channels[..k + 1], m) == Confidences(channels[..k], m)[c.name := Confident(c, m)]
  {
    assert channels[..k + 1][..k] == channels[..k];
  }

  lemma AnySnoc(channels: seq<Channel>, k: nat, current: Value, f: Field, m: Model)
    requires k < |channels|
    ensures AnySupplies(channels[..k + 1], f, m) <==>
            AnySupplies(channels[..k], f, m) || Supplied(channels[k].data, f, m).Some?
    ensures AnyDiffers(channels[..k + 1], current, f, m) <==>
            AnyDiffers(channels[..k], current, f, m) || MarksDifference(current, Supplied(channels[k].data, f, m))
  {
    assert channels[..k + 1] == channels[..k] + [channels[k]];
    assert forall c :: c in channels[..k + 1] <==> c in channels[..k] || c == channels[k];
  }

  /** The body of that loop. */
  method FillCell(c: Channel, current: Value, f: Field, m: Model)
    returns (value: Value, differs: bool, supplies: bool)
    ensures value == Cell(current, Supplied(c.data, f, m))
    ensures differs == MarksDifference(current, Supplied(c.data, f, m))
    ensures supplies == Supplied(c.data, f, m).Some?
  {
    value, differs, supplies := Null, false, false;
    if m in Entries(c.data, f) {
      value := NormalizeValue(f, Entries(c.data, f)[m]);
      supplies := true;
      if current != Null && !Equal(current, value) {
        differs := true;
      } else if Equal(current, value) {
        value := SAME;
      }
    }
    if value == Null && current == Null { value := SAME; }
    if current == Null && value != Null && value != SAME { differs := true; }
  }

  /** One field of one model. */
  method FillField(local: Prices, channels: seq<Channel>, m: Model, f: Field) returns (item: Item, wanted: bool)
    ensures item == RawItem(local, channels, m, f) && wanted == Included(local, channels, m, f)
  {
    var current := Current(local, f, m);
    var r := FillItem(channels, current, f, m);
    item := Item(current, r.cells, r.confidence);
    wanted := if current != Null then r.differs else r.supplied;
  }

  /** The loop over the fields of one model. */
  method FillRow(local: Prices, channels: seq<Channel>, m: Model) returns (row: map<Field, Item>)
    ensures row == RawRow(local, channels, m)
  {
    row := map[];
    for k := 0 to |FIELDS|
      invariant forall f :: f in row <==> f in FIELDS[..k] && Included(local, channels, m, f)
      invariant forall f :: f in row ==> row[f] == RawItem(local, channels, m, f)
    {
      var f := FIELDS[k];
      var item, wanted := FillField(local, channels, m, f);
      assert FIELDS[..k + 1] == FIELDS[..k] + [f];
      if wanted { row := row[f := item]; }
    }
    forall f ensures f in FIELDS[..|FIELDS|] { AllFields(f); }
  }

  method FirstPass(local: Prices, channels: seq<Channel>, models: set<Model>) returns (d: Differences)
    ensures d == Raw(local, channels, models)
  {
    d := map[];
    var todo := models;
    while todo != {}
      invariant todo <= models && d == Raw(local, channels, models - todo)
      decreases |todo|
    {
      var m :| m in todo;
      var row := FillRow(local, channels, m);
      assert models - (todo - {m}) == (models - todo) + {m};
      RawStep(local, channels, models - todo, m);
      if row != map[] { d := d[m := row]; }
      todo := todo - {m};
    }
    assert models - todo == models;
  }

  lemma RawStep(local: Prices, channels: seq<Channel>, models: set<Model>, m: Model)
    requires m !in models
    ensures var d, row := Raw(local, channels, models), RawRow(local, channels, m);
            Raw(local, channels, models + {m}) == if row != map[] then d[m := row] else d
  {
  }

  // ---------------------------------------------------------------- second pass

  method CountingNames(item: Item) returns (names: set<string>)
    ensures names == set name | name in item.upstreams && Counts(item.upstreams[name])
  {
    names := {};
    var todo := item.upstreams.Keys;
    while todo != {}
      invariant todo <= item.upstreams.Keys
      invariant forall name :: name in names <==>
                  name in item.upstreams && name !in todo && Counts(item.upstreams[name])
      decreases |todo|
    {
      var name :| name in todo;
      if item.upstreams[name] != Null && item.upstreams[name] != SAME { names := names + {name}; }
      todo := todo - {name};
    }
  }

  ghost predicate DiffersInRow(row: map<Field, Item>, name: string) {
    exists f :: f in row && name in row[f].upstreams && Counts(row[f].upstreams[name])
  }

  method RowNames(row: map<Field, Item>) returns (names: set<string>)
    ensures forall name :: name in names <==> DiffersInRow(row, name)
  {
    names := {};
    var todo := row.Keys;
    while todo != {}
      invariant todo <= row.Keys
      invariant forall name :: name in names <==>
                  exists f :: f in row && f !in todo && name in row[f].upstreams && Counts(row[f].upstreams[name])
      decreases |todo|
    {
      var f :| f in todo;
      var more := CountingNames(row[f]);
      names := names + more;
      todo := todo - {f};
    }
  }

  method SecondPass(d: Differences) returns (names: set<string>)
    ensures forall name :: name in names <==> DiffersIn(d, name)
  {
    names := {};
    var todo := d.Keys;
    while todo != {}
      invariant todo <= d.Keys
      invariant forall name :: name in names <==> exists m :: m in d && m !in todo && DiffersInRow(d[m], name)
      decreases |todo|
    {
      var m :| m in todo;
      var more := RowNames(d[m]);
      names := names + more;
      todo := todo - {m};
    }
    forall name ensures name in names <==> DiffersIn(d, name) {
      assert DiffersIn(d, name) <==> exists m :: m in d && DiffersInRow(d[m], name);
    }
  }

  // ---------------------------------------------------------------- third pass

  /** Delete the channels without a difference, then look for a value that is not "same". */
  method PruneItem(item: Item, keep: set<string>) returns (r: Item, survives: bool)
    ensures r == PrunedItem(item, keep) && survives == Survives(item, keep)
  {
    r := DeleteChannels(item, keep);
    assert forall name :: name in r.upstreams <==> name in item.upstreams && name in keep;
    survives := HasOther(r.upstreams);
  }

  method DeleteChannels(item: Item, keep: set<string>) returns (r: Item)
    ensures r == PrunedItem(item, keep)
  {
    var upstreams, confidence, todo := item.upstreams, item.confidence, item.upstreams.Keys;
    ghost var gone := {};
    while todo != {}
      invariant todo <= item.upstreams.Keys && gone == item.upstreams.Keys - todo - keep
      invariant upstreams == item.upstreams - gone && confidence == item.confidence - gone
      decreases |todo|
    {
      var name :| name in todo;
      if name !in keep {
        DeleteOneMore(item.upstreams, gone, name);
        DeleteOneMore(item.confidence, gone, name);
        upstreams := upstreams - {name};
        confidence := confidence - {name};
        gone := gone + {name};
      }
      todo := todo - {name};
    }
    r := item.(upstreams := upstreams, confidence := confidence);
  }

  lemma DeleteOneMore<T>(m: map<string, T>, gone: set<string>, name: string)
    ensures m - gone - {name} == m - (gone + {name})
  {
  }

  method HasOther(upstreams: map<string, Value>) returns (other: bool)
    ensures other <==> exists name :: name in upstreams && upstreams[name] != SAME
  {
    var todo := upstreams.Keys;
    while todo != {}
      invariant todo <= upstreams.Keys
      invariant forall name :: name in upstreams && name !in todo ==> upstreams[name] == SAME
      decreases |todo|
    {
      var name :| name in todo;
      if upstreams[name] != SAME { return true; }
      todo := todo - {name};
    }
    other := false;
  }

  method PruneRow(row: map<Field, Item>, keep: set<string>) returns (r: map<Field, Item>)
    ensures r == PrunedRow(row, keep)
  {
    r := row;
    var todo := row.Keys;
    while todo != {}
      invariant todo <= row.Keys
      invariant forall f :: f in r <==> f in row && (f in todo || Survives(row[f], keep))
      invariant forall f :: f in r ==> r[f] == if f in todo then row[f] else PrunedItem(row[f], keep)
      decreases |todo|
    {
      var f :| f in todo;
      var item, survives := PruneItem(row[f], keep);
      if survives { r := r[f := item]; } else { r := r - {f}; }
      todo := todo - {f};
    }
  }

  method ThirdPass(d: Differences, keep: set<string>) returns (r: Differences)
    ensures r == Pruned(d, keep)
  {
    r := d;
    var todo := d.Keys;
    while todo != {}
      invariant todo <= d.Keys
      invariant forall m :: m in r <==> m in d && (m in todo || PrunedRow(d[m], keep) != map[])
      invariant forall m :: m in r ==> r[m] == if m in todo then d[m] else PrunedRow(d[m], keep)
      decreases |todo|
    {
      var m :| m in todo;
      var row := PruneRow(d[m], keep);
      if row == map[] { r := r - {m}; } else { r := r[m := row]; }
      todo := todo - {m};
    }
  }

  /** buildDifferences. */
  method BuildDifferences(local: Prices, channels: seq<Channel>) returns (d: Differences)
    ensures d == Build(local, channels)
  {
    var models := CollectModels(local, channels);
    d := FirstPass(local, channels, models);
    var names := SecondPass(d);
    OnlyChannelNames(local, channels, names);
    d := ThirdPass(d, names);
  }

  lemma OnlyChannelNames(local: Prices, channels: seq<Channel>, names: set<string>)
    requires forall name :: name in names <==> DiffersIn(AllRaw(local, channels), name)
    ensures names == Kept(local, channels)
  {
    var d := AllRaw(local, channels);
    forall name | DiffersIn(d, name) ensures name in Names(channels) {
      var m, f :| m in d && f in d[m] && name in d[m][f].upstreams && Counts(d[m][f].upstreams[name]);
      RawAt(local, channels, AllModels(local, channels), m, f);
      CellNames(channels, Current(local, f, m), f, m);
    }
  }
}
