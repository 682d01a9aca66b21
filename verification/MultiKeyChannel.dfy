/** A multi-key channel as the handlers of controller/channel.go change it, and append mode of UpdateChannel. */
module MultiKeyChannel {
  import opened Base
  import opened Text
  import opened ModelNames
  import opened MultiKey

  // ---------------------------------------------------------------- append mode

  /** How append mode reads the stored keys: text that looks like an array but does not parse counts as no keys. */
  function ExistingKeys(text: string, json: Json): (r: seq<string>) {
    if LooksLikeArray(text) then
      if json(TrimSpace(text)).Some? then json(TrimSpace(text)).value else []
    else Split(TrimChar(text, '\n'), '\n')
  }

  /** The new lines, trimmed, without blanks, without repeats and without keys that are already there. */
  function NewKeys(existing: seq<string>, text: string): (r: seq<string>) {
    var known := TrimmedNames(existing);
    Filter(Normalize(Split(text, '\n')), NotIn(known))
  }

  function Append(row: Row, text: string, json: Json): (r: Row) {
    if row.key == "" then Update(row, text, row.info, json)
    else
      var existing := ExistingKeys(row.key, json);
      Update(row, Join(existing + NewKeys(existing, text), '\n'), row.info, json)
  }

  /** The appended keys are new, distinct, trimmed and fit on a line. */
  lemma NewKeysAre(existing: seq<string>, text: string)
    ensures var r := NewKeys(existing, text);
            && Normal(r) && FreeOf(r, '\n')
            && (forall key :: key in r <==>
                  key in TrimmedNames(Split(text, '\n')) && key !in TrimmedNames(existing))
            && KeepsOrder(r, Normalize(Split(text, '\n')))
  {
    var lines := Split(text, '\n');
    SplitPieces(text, '\n');
    TrimmedFree(lines, '\n');
    NormalizeIsNormal(lines);
    UniqIn(TrimmedNames(lines));
    FilterNormal(Normalize(lines), NotIn(TrimmedNames(existing)));
    FilterIn(Normalize(lines), NotIn(TrimmedNames(existing)));
    FilterKeepsOrder(Normalize(lines), NotIn(TrimmedNames(existing)));
  }

  function EnabledRecs(keys: seq<string>): (r: seq<Rec>)
    ensures |r| == |keys| && forall i :: 0 <= i < |keys| ==> r[i] == Rec(keys[i], ENABLED, None, None)
  {
    seq(|keys|, i requires 0 <= i < |keys| => Rec(keys[i], ENABLED, None, None))
  }

  /** What append mode should store: the keys that are there, then the new ones. */
  function Appended(stored: string, text: string, json: Json): (r: seq<string>) {
    GetKeys(stored, json) + NewKeys(GetKeys(stored, json), text)
  }

  /** When append mode keeps every record: what it joins is read back as the keys it should store. */
  predicate KeepsRecords(stored: string, text: string, json: Json) {
    var all := Appended(stored, text, json);
    if LooksLikeArray(stored) && !IsArray(stored, json) then
      var only := NewKeys([], text);
      || only == []
      || (if IsArray(Join(only, '\n'), json) then json(TrimSpace(Join(only, '\n'))) == Some(all) else only == all)
    else if IsArray(Join(all, '\n'), json) then json(TrimSpace(Join(all, '\n'))) == Some(all)
    else Joinable(all, '\n')
  }

  lemma AppendedRecords(keys: seq<string>, added: seq<string>, info: Info)
    requires Within(info, |keys|)
    ensures Records(keys + added, info) == Records(keys, info) + EnabledRecs(added)
  {
    var all := keys + added;
    forall i | 0 <= i < |all| ensures RecAt(all[i], info, i) == (Records(keys, info) + EnabledRecs(added))[i] {}
  }

  lemma SaveTextShows(row: Row, text: string, all: seq<string>, json: Json)
    requires Aligned(row, json) && text != "" && GetKeys(row.key, json) <= all
    requires GetKeys(text, json) == all && CountKeys(text, json) == |all|
    ensures var r := Update(row, text, row.info, json); Aligned(r, json) && View(r, json) == Records(all, row.info)
  {
    assert Below(row.info.status, |all|) == row.info.status;
    assert Update(row, text, row.info, json) == Row(text, row.info.(size := |all|));
  }

  lemma ShownText(row: Row, text: string, all: seq<string>, json: Json)
    requires text != ""
    requires var r := Update(row, text, row.info, json); Aligned(r, json) && View(r, json) == Records(all, row.info)
    ensures GetKeys(text, json) == all && CountKeys(text, json) == |all|
  {
    var r := Update(row, text, row.info, json);
    KeysOfRecords(GetKeys(text, json), r.info);
    KeysOfRecords(all, row.info);
  }

  lemma SaveNoText(row: Row, json: Json)
    requires Aligned(row, json) && row.key != ""
    ensures Update(row, "", row.info, json) == row
  {
    assert Below(row.info.status, row.info.size) == row.info.status;
  }

  /** Saving a text over a row shows the wanted keys exactly when they are read back from it; no text saves nothing. */
  lemma SaveJoined(row: Row, text: string, all: seq<string>, json: Json)
    requires Aligned(row, json) && row.key != "" && GetKeys(row.key, json) <= all
    ensures var r := Update(row, text, row.info, json);
            Aligned(r, json) && View(r, json) == Records(all, row.info) <==>
            if text == "" then all == GetKeys(row.key, json)
            else GetKeys(text, json) == all && CountKeys(text, json) == |all|
  {
    var r := Update(row, text, row.info, json);
    if text == "" {
      SaveNoText(row, json);
      KeysOfRecords(GetKeys(row.key, json), row.info);
      KeysOfRecords(all, row.info);
    } else if GetKeys(text, json) == all && CountKeys(text, json) == |all| {
      SaveTextShows(row, text, all, json);
    } else if Aligned(r, json) && View(r, json) == Records(all, row.info) {
      ShownText(row, text, all, json);
    }
  }

  lemma StoredSome(row: Row, json: Json)
    requires Aligned(row, json) && row.key != ""
    ensures GetKeys(row.key, json) != []
  {
  }

  lemma NewKeysFit(existing: seq<string>, text: string)
    ensures var r := NewKeys(existing, text); r != [] ==> Joinable(r, '\n') && r != [""] && Join(r, '\n') != ""
  {
    var r := NewKeys(existing, text);
    NewKeysAre(existing, text);
    if r != [] {
      assert r[0] in r && r[|r| - 1] in r;
      JoinEmpty(r);
    }
  }

  /** Fewer known keys leave more new ones. */
  lemma NoNewKeys(existing: seq<string>, text: string)
    requires NewKeys([], text) == []
    ensures NewKeys(existing, text) == []
  {
    FilterAll(Normalize(Split(text, '\n')), NotIn(TrimmedNames([])));
  }

  /** New keys alone are read back as they are, unless their text is an array. */
  lemma ReadBack(only: seq<string>, text: string, json: Json)
    requires only == NewKeys([], text) && only != []
    ensures var joined := Join(only, '\n');
            && joined != ""
            && (!IsArray(joined, json) ==> GetKeys(joined, json) == only && CountKeys(joined, json) == |only|)
  {
    NewKeysFit([], text);
    JoinSplitRoundTrip(only, '\n');
  }

  /** Unparsable stored text: only the new keys are joined. */
  lemma LostText(row: Row, text: string, json: Json)
    requires Aligned(row, json) && LooksLikeArray(row.key) && !IsArray(row.key, json)
    ensures var r, all := Append(row, text, json), Appended(row.key, text, json);
            Aligned(r, json) && View(r, json) == Records(all, row.info) <==> KeepsRecords(row.key, text, json)
  {
    var only, all := NewKeys([], text), Appended(row.key, text, json);
    assert row.key != "" && [] + only == only;
    StoredSome(row, json);
    SaveJoined(row, Join(only, '\n'), all, json);
    if only == [] {
      NoNewKeys(GetKeys(row.key, json), text);
    } else {
      ReadBack(only, text, json);
    }
  }

  /** Joined keys are read back exactly when their text parses as the array of them, or they fit on lines. */
  lemma JoinedBack(keys: seq<string>, all: seq<string>, json: Json)
    requires keys != [] && keys <= all
    ensures var text := Join(all, '\n');
            (if text == "" then all == keys else GetKeys(text, json) == all && CountKeys(text, json) == |all|) <==>
            if IsArray(text, json) then json(TrimSpace(text)) == Some(all) else Joinable(all, '\n')
  {
    StorableIs(all, json);
    JoinEmpty(all);
    assert all == [""] ==> all == keys;
  }

  /** All other stored text: the old and the new keys are joined. */
  lemma JoinedText(row: Row, text: string, json: Json)
    requires Aligned(row, json) && row.key != "" && (LooksLikeArray(row.key) ==> IsArray(row.key, json))
    ensures var r, all := Append(row, text, json), Appended(row.key, text, json);
            Aligned(r, json) && View(r, json) == Records(all, row.info) <==> KeepsRecords(row.key, text, json)
  {
    var keys, all := GetKeys(row.key, json), Appended(row.key, text, json);
    StoredSome(row, json);
    SaveJoined(row, Join(all, '\n'), all, json);
    JoinedBack(keys, all, json);
  }

  /** Append mode keeps every record and adds an enabled one for each new key exactly when KeepsRecords holds. */
  lemma AppendRefines(row: Row, text: string, json: Json)
    requires Aligned(row, json) && row.key != ""
    ensures var r, added := Append(row, text, json), NewKeys(GetKeys(row.key, json), text);
            Aligned(r, json) && View(r, json) == View(row, json) + EnabledRecs(added) <==>
            KeepsRecords(row.key, text, json)
  {
    var keys := GetKeys(row.key, json);
    AppendedRecords(keys, NewKeys(keys, text), row.info);
    if LooksLikeArray(row.key) && !IsArray(row.key, json) {
      LostText(row, text, json);
    } else {
      JoinedText(row, text, json);
    }
  }

  /** Without stored keys the text is taken as it is, and every key of it is enabled. */
  lemma AppendToNothing(row: Row, text: string, json: Json)
    requires Aligned(row, json) && row.key == ""
    ensures View(Append(row, text, json), json) == EnabledRecs(GetKeys(text, json))
    ensures Aligned(Append(row, text, json), json) <==> |GetKeys(text, json)| == CountKeys(text, json)
  {
    var r, info := Append(row, text, json), row.info;
    assert forall i :: i !in info.status && i !in info.time && i !in info.reason;
    assert forall i :: i !in r.info.status;
  }

  // ---------------------------------------------------------------- plain keys are always kept

  lemma {:induction false} TrimLeftFurther(s: string)
    requires var u := TrimLeft(s, c => c == '\n'); u != "" && !IsSpace(u[0])
    ensures TrimLeft(s, IsSpace) == TrimLeft(s, c => c == '\n')
  {
    if s != "" && s[0] == '\n' { TrimLeftFurther(s[1..]); }
  }

  /** Lines whose first one starts with an ordinary character are not taken for an array. */
  lemma PlainLines(s: string)
    requires PlainKey(Split(TrimChar(s, '\n'), '\n')[0])
    ensures !LooksLikeArray(s)
  {
    var u := TrimLeft(s, c => c == '\n');
    var first := Split(TrimChar(s, '\n'), '\n')[0];
    assert TrimChar(s, '\n') == TrimRight(u, c => c == '\n');
    assert u != "" && u[0] == first[0];
    TrimLeftFurther(s);
    TrimRightKeepsStart(u);
    assert TrimSpace(s)[0] == u[0];
  }

  lemma JoinableConcat(a: seq<string>, b: seq<string>)
    requires a != [] && PlainKeys(a) && FreeOf(b, '\n') && forall x :: x in b ==> x != ""
    ensures PlainKey((a + b)[0]) && Joinable(a + b, '\n')
  {
    var all := a + b;
    assert forall x :: x in all ==> x in a || x in b;
    assert a[0] in a && all[|all| - 1] in all;
  }

  /** A channel with plain keys keeps them, whatever is appended. */
  lemma PlainAppendKeeps(row: Row, text: string, json: Json)
    requires Aligned(row, json) && row.key != "" && PlainKeys(GetKeys(row.key, json))
    ensures KeepsRecords(row.key, text, json)
  {
    var keys := GetKeys(row.key, json);
    StoredSome(row, json);
    assert keys[0] in keys;
    if !IsArray(row.key, json) { PlainLines(row.key); }
    NewKeysAre(keys, text);
    JoinableConcat(keys, NewKeys(keys, text));
    StoredKeys(Appended(row.key, text, json), json);
  }

  /** Stored text that looks like an array but does not parse is read as lines elsewhere, and lost here. */
  lemma AppendLosesKeys(row: Row, text: string, json: Json)
    requires LooksLikeArray(row.key) && json(TrimSpace(row.key)).None?
    requires NewKeys([], text) != [] && PlainKeys(NewKeys([], text))
    ensures GetKeys(Append(row, text, json).key, json) == NewKeys([], text)
  {
    var added := NewKeys([], text);
    PlainJoinable(added);
    StoredKeys(added, json);
    assert [] + added == added;
    assert row.key != "";
  }

  // ---------------------------------------------------------------- replacing the whole text

  /**
    Replacing the keys keeps every status at its index, whatever key stands there now; the maps are aligned afterwards
    exactly when no disabled time or reason lies behind the new end.
   */
  lemma ReplaceAligned(row: Row, text: string, json: Json)
    requires Aligned(row, json) && text != "" && |GetKeys(text, json)| == CountKeys(text, json)
    ensures var n, r := CountKeys(text, json), Update(row, text, row.info, json);
            && (forall i :: 0 <= i < n ==> StatusAt(r.info, i) == StatusAt(row.info, i))
            && (Aligned(r, json) <==> forall i :: i in row.info.time || i in row.info.reason ==> i < n)
  {
    BelowIs(row.info.status, CountKeys(text, json));
    BehindEnd(row.info, CountKeys(text, json));
  }

  lemma BelowIs(status: map<int, int>, n: int)
    ensures forall i :: i in Below(status, n) <==> i in status && i < n
    ensures forall i :: i in Below(status, n) ==> Below(status, n)[i] == status[i]
  {
  }

  /** Dropping the statuses behind the end leaves times and reasons without a status exactly behind the end. */
  lemma BehindEnd(info: Info, n: nat)
    requires NoLeftovers(info) && Within(info, info.size)
    ensures var r := info.(size := n, status := Below(info.status, n));
            Within(r, n) && NoLeftovers(r) <==> forall i :: i in info.time || i in info.reason ==> i < n
  {
    BelowIs(info.status, n);
    var r := info.(size := n, status := Below(info.status, n));
    if forall i :: i in info.time || i in info.reason ==> i < n {
      assert Within(r, n) && NoLeftovers(r);
    }
  }

  // ---------------------------------------------------------------- the handlers

  class Channel {
    var stored: Row
    const json: Json

    constructor (row: Row, json: Json)
      ensures stored == row && this.json == json
    {
      stored := row;
      this.json := json;
    }

    /** ManageMultiKeys, and the automatic disabling: every action leaves what Act says. */
    method Manage(a: Action) returns (reply: Reply)
      modifies this
      ensures (stored, reply) == Act(old(stored), a, json)
    {
      match a
      case DisableKey(index) => reply := DisableKey(index);
      case EnableKey(index) => reply := EnableKey(index);
      case EnableAll => reply := EnableAllKeys();
      case DisableAll => reply := DisableAllKeys();
      case DeleteKey(index) => reply := DeleteKey(index);
      case DeleteDisabled => reply := DeleteDisabledKeys();
      case AutoDisable(key, now, why) => reply := AutoDisableKey(key, now, why);
    }

    /** disable_key. */
    method DisableKey(index: Option<int>) returns (reply: Reply)
      modifies this
      ensures (stored, reply) == DisableAt(old(stored), index, json)
    {
      if index.None? || index.value < 0 || index.value >= stored.info.size { return Refused; }
      var status := stored.info.status[index.value := MANUALLY_DISABLED];
      SaveInfo(stored.key, stored.info.(status := status));
      reply := Done(0);
    }

    /** enable_key. */
    method EnableKey(index: Option<int>) returns (reply: Reply)
      modifies this
      ensures (stored, reply) == EnableAt(old(stored), index, json)
    {
      if index.None? || index.value < 0 || index.value >= stored.info.size { return Refused; }
      var i := index.value;
      var info := stored.info;
      SaveInfo(stored.key, Info(info.size, info.status - {i}, info.time - {i}, info.reason - {i}));
      reply := Done(0);
    }

    /** enable_all_keys. */
    method EnableAllKeys() returns (reply: Reply)
      modifies this
      ensures (stored, reply) == EnableEvery(old(stored), json)
    {
      reply := Done(|stored.info.status|);
      SaveInfo(stored.key, Info(stored.info.size, map[], map[], map[]));
    }

    /** disable_all_keys. */
    method DisableAllKeys() returns (reply: Reply)
      modifies this
      ensures (stored, reply) == DisableEvery(old(stored), json)
    {
      var n := if stored.info.size > 0 then stored.info.size else 0;
      var status, count := DisableEnabled(stored.info, n);
      if count == 0 { return Refused; }
      SaveInfo(stored.key, stored.info.(status := status));
      reply := Done(count);
    }

    /** delete_key. */
    method DeleteKey(index: Option<int>) returns (reply: Reply)
      modifies this
      ensures (stored, reply) == DeleteAt(old(stored), index, json)
    {
      if index.None? || index.value < 0 || index.value >= stored.info.size { return Refused; }
      var built := Rebuild(GetKeys(stored.key, json), stored.info, index.value);
      if built.keys == [] { return Refused; }
      SaveBuilt(built);
      reply := Done(0);
    }

    /** delete_disabled_keys. */
    method DeleteDisabledKeys() returns (reply: Reply)
      modifies this
      ensures (stored, reply) == DeleteAutoDisabled(old(stored), json)
    {
      var keys := GetKeys(stored.key, json);
      var built, deleted := RebuildSurvivors(keys, stored.info);
      reply := StoreSurvivors(built, |keys|, deleted);
    }

    method StoreSurvivors(built: Built, n: nat, deleted: nat) returns (reply: Reply)
      requires deleted == n - |built.keys|
      modifies this
      ensures (stored, reply) == DropTo(old(stored), built, n, json)
    {
      if deleted == 0 { return Refused; }
      SaveBuilt(built);
      reply := Done(deleted);
    }

    /** Store a rebuilt key list. */
    method SaveBuilt(built: Built)
      modifies this
      ensures stored == Save(old(stored), built, json)
    {
      SaveInfo(Join(built.keys, '\n'), built.info);
    }

    /** The key branch of handlerMultiKeyUpdate for an automatic disabling. */
    method AutoDisableKey(usingKey: string, now: int, why: string) returns (reply: Reply)
      modifies this
      ensures (stored, reply) == AutoDisableAt(old(stored), usingKey, now, why, json)
    {
      var keys := GetKeys(stored.key, json);
      var i := 0;
      while i < |keys| && keys[i] != usingKey
        invariant 0 <= i <= |keys| && usingKey !in keys[..i]
      {
        i := i + 1;
      }
      FirstIndexIs(keys, usingKey, i);
      if i == |keys| { return Refused; }
      var info := stored.info;
      stored := Row(stored.key, Info(info.size, info.status[i := AUTO_DISABLED], info.time[i := now],
                                     info.reason[i := why]));
      reply := Done(0);
    }

    /** UpdateChannel in append mode. */
    method AppendKeys(text: string)
      modifies this
      ensures stored == Append(old(stored), text, json)
    {
      if stored.key == "" {
        SaveInfo(text, stored.info);
      } else {
        var existing := ExistingKeys(stored.key, json);
        var added := Deduplicate(existing, Split(text, '\n'));
        SaveInfo(Join(existing + added, '\n'), stored.info);
      }
    }

    /** Channel.Update. */
    method SaveInfo(key: string, info: Info)
      modifies this
      ensures stored == Update(old(stored), key, info, json)
    {
      var text := if key != "" then key else stored.key;
      var size := CountKeys(text, json);
      stored := Row(text, Info(size, Below(info.status, size), info.time, info.reason));
    }
  }

  lemma InPrefix(keys: seq<string>, i: nat, n: nat)
    ensures i < n <= |keys| ==> keys[i] in keys[..n]
  {
    if i < n <= |keys| { assert keys[..n][i] == keys[i]; }
  }

  lemma {:induction false} FirstIndexIs(keys: seq<string>, key: string, i: nat)
    requires i <= |keys| && key !in keys[..i] && (i < |keys| ==> keys[i] == key)
    ensures FirstIndex(keys, key) == i
  {
    var f := FirstIndex(keys, key);
    InPrefix(keys, f, i);
    InPrefix(keys, i, f);
  }

  /** The loop of disable_all_keys. */
  method DisableEnabled(info: Info, n: nat) returns (status: map<int, int>, count: nat)
    ensures status == DisableUpTo(info.status, n) && count == CountEnabled(info, n)
  {
    status, count := info.status, 0;
    for i := 0 to n
      invariant status == DisableUpTo(info.status, i) && count == CountEnabled(info, i)
    {
      DisableUpToIs(info, i, i);
      if i !in status || status[i] == ENABLED {
        status := status[i := MANUALLY_DISABLED];
        count := count + 1;
      }
    }
  }

  /** The loop of delete_key. */
  method Rebuild(keys: seq<string>, info: Info, index: int) returns (built: Built)
    ensures built == WithoutKey(keys, info, index, |keys|)
  {
    built := NOTHING;
    for i := 0 to |keys|
      invariant built == WithoutKey(keys, info, index, i)
    {
      if i != index {
        var n := |built.keys|;
        var status, time, reason := built.info.status, built.info.time, built.info.reason;
        if i in info.status && info.status[i] != ENABLED { status := status[n := info.status[i]]; }
        if i in info.time { time := time[n := info.time[i]]; }
        if i in info.reason { reason := reason[n := info.reason[i]]; }
        built := Built(built.keys + [keys[i]], Info(n + 1, status, time, reason));
      }
    }
  }

  /** The loop of delete_disabled_keys. */
  method RebuildSurvivors(keys: seq<string>, info: Info) returns (built: Built, deleted: nat)
    ensures built == WithoutAutoDisabled(keys, info, |keys|) && deleted == |keys| - |built.keys|
  {
    built, deleted := NOTHING, 0;
    for i := 0 to |keys|
      invariant built == WithoutAutoDisabled(keys, info, i) && deleted == i - |built.keys|
    {
      var state := if i in info.status then info.status[i] else ENABLED;
      if state == AUTO_DISABLED {
        deleted := deleted + 1;
      } else {
        var n := |built.keys|;
        var status, time, reason := built.info.status, built.info.time, built.info.reason;
        if state != ENABLED {
          status := status[n := state];
          if i in info.time { time := time[n := info.time[i]]; }
          if i in info.reason { reason := reason[n := info.reason[i]]; }
        }
        built := Built(built.keys + [keys[i]], Info(n + 1, status, time, reason));
      }
    }
  }

  lemma TrimmedSnoc(s: seq<string>, k: nat)
    requires k < |s|
    ensures var name := TrimSpace(s[k]);
            TrimmedNames(s[..k + 1]) == if name != "" then TrimmedNames(s[..k]) + [name] else TrimmedNames(s[..k])
  {
    assert s[..k + 1][..k] == s[..k];
  }

  /** One step of the third loop: the next name joins the result unless it was seen. */
  lemma UnseenSnoc(s: seq<string>, x: string, known: seq<string>)
    ensures Filter(Uniq(s + [x]), NotIn(known)) ==
            if x in s || x in known then Filter(Uniq(s), NotIn(known)) else Filter(Uniq(s), NotIn(known)) + [x]
  {
    UniqIn(s);
    assert (s + [x])[..|s|] == s;
    FilterSnoc(Uniq(s), x, NotIn(known));
  }

  /** The three loops of append mode. */
  method Deduplicate(existing: seq<string>, lines: seq<string>) returns (added: seq<string>)
    ensures added == Filter(Normalize(lines), NotIn(TrimmedNames(existing)))
  {
    var names := Trimmed(lines);
    var known := Trimmed(existing);
    added := Unseen(known, names);
  }

  method Unseen(known: seq<string>, names: seq<string>) returns (added: seq<string>)
    ensures added == Filter(Uniq(names), NotIn(known))
  {
    var seen := set key | key in known;
    added := [];
    ghost var done: seq<string> := [];
    for k := 0 to |names|
      invariant done == names[..k]
      invariant added == Filter(Uniq(done), NotIn(known))
      invariant forall key :: key in seen <==> key in known || key in done
    {
      UnseenSnoc(done, names[k], known);
      if names[k] !in seen {
        seen := seen + {names[k]};
        added := added + [names[k]];
      }
      done := done + [names[k]];
    }
    assert names[..|names|] == names;
  }

  method Trimmed(lines: seq<string>) returns (names: seq<string>)
    ensures names == TrimmedNames(lines)
  {
    names := [];
    for k := 0 to |lines|
      invariant names == TrimmedNames(lines[..k])
    {
      TrimmedSnoc(lines, k);
      var name := TrimSpace(lines[k]);
      if name != "" { names := names + [name]; }
    }
    assert lines[..|lines|] == lines;
  }
}
