/**
  Multi-key channels (ManageMultiKeys and append mode of controller/channel.go, Channel.Update and the automatic
  disabling of model/channel.go): a key list stored as text, and three sparse maps indexed by position.
 */
module MultiKey {
  import opened Base
  import opened Text

  const ENABLED := 1
  const MANUALLY_DISABLED := 2
  const AUTO_DISABLED := 3

  /** ChannelInfo. */
  datatype Info = Info(size: int, status: map<int, int>, time: map<int, int>, reason: map<int, string>)

  /** The stored columns of a multi-key channel. */
  datatype Row = Row(key: string, info: Info)

  /** json.Unmarshal into an array of raw messages, None on an error; which texts parse is left open. */
  type Json = string -> Option<seq<string>>

  predicate LooksLikeArray(text: string) {
    "[" <= TrimSpace(text)
  }

  predicate IsArray(text: string, json: Json) {
    LooksLikeArray(text) && json(TrimSpace(text)).Some?
  }

  /** Channel.GetKeys. */
  function GetKeys(text: string, json: Json): (r: seq<string>) {
    if text == "" then []
    else if IsArray(text, json) then json(TrimSpace(text)).value
    else Split(TrimChar(text, '\n'), '\n')
  }

  /** How Channel.Update counts the keys: like GetKeys, except that an empty array counts as one line of text. */
  function CountKeys(text: string, json: Json): (n: nat) {
    if text == "" then 0
    else if IsArray(text, json) && |json(TrimSpace(text)).value| > 0 then |json(TrimSpace(text)).value|
    else |Split(TrimChar(text, '\n'), '\n')|
  }

  function Below(status: map<int, int>, n: int): (r: map<int, int>) {
    map i | i in status && i < n :: status[i]
  }

  /** Channel.Update: an empty key keeps the stored one, the size is recounted, statuses behind the end are dropped. */
  function Update(stored: Row, key: string, info: Info, json: Json): (r: Row) {
    var text := if key != "" then key else stored.key;
    var size := CountKeys(text, json);
    Row(text, info.(size := size, status := Below(info.status, size)))
  }

  /** A text looks like an array exactly when its first character that is not blank is a bracket. */
  lemma ArrayText(text: string)
    ensures LooksLikeArray(text) <==>
            exists i :: 0 <= i < |text| && text[i] == '[' && forall j :: 0 <= j < i ==> IsSpace(text[j])
  {
    var r := TrimSpace(text);
    var i, j := TrimDrops(text, IsSpace);
    forall k | 0 <= k < i ensures IsSpace(text[k]) { assert text[k] in text[..i]; }
    forall k | j <= k < |text| ensures IsSpace(text[k]) { assert text[k] in text[j..]; }
    assert r != "" ==> text[i] == r[0];
  }

  /** The two ways of counting keys agree for every text but one that parses as an empty array. */
  lemma CountsAgree(text: string, json: Json)
    ensures |GetKeys(text, json)| == CountKeys(text, json) <==>
            !(IsArray(text, json) && json(TrimSpace(text)).value == [])
  {
    assert text == "" ==> TrimSpace(text) == "";
  }

  // ---------------------------------------------------------------- the list of records it stands for

  datatype Rec = Rec(key: string, status: int, time: Option<int>, reason: Option<string>)

  function StatusAt(info: Info, i: int): (s: int) {
    if i in info.status then info.status[i] else ENABLED
  }

  function RecAt(key: string, info: Info, i: int): (r: Rec) {
    Rec(key, StatusAt(info, i), if i in info.time then Some(info.time[i]) else None,
        if i in info.reason then Some(info.reason[i]) else None)
  }

  function Records(keys: seq<string>, info: Info): (r: seq<Rec>)
    ensures |r| == |keys| && forall i :: 0 <= i < |keys| ==> r[i] == RecAt(keys[i], info, i)
  {
    seq(|keys|, i requires 0 <= i < |keys| => RecAt(keys[i], info, i))
  }

  function View(row: Row, json: Json): (r: seq<Rec>) {
    Records(GetKeys(row.key, json), row.info)
  }

  ghost predicate Within(info: Info, n: int) {
    && (forall i :: i in info.status ==> 0 <= i < n)
    && (forall i :: i in info.time ==> 0 <= i < n)
    && (forall i :: i in info.reason ==> 0 <= i < n)
  }

  /** Disabled times and reasons only on keys that are not enabled, and no explicit entry for enabled keys. */
  ghost predicate NoLeftovers(info: Info) {
    && (forall i :: i in info.status ==> info.status[i] != ENABLED)
    && (forall i :: i in info.time || i in info.reason ==> i in info.status)
  }

  /** The size is the number of keys, and the maps speak only of existing keys. */
  ghost predicate Aligned(row: Row, json: Json) {
    && row.info.size == |GetKeys(row.key, json)| == CountKeys(row.key, json)
    && Within(row.info, row.info.size) && NoLeftovers(row.info)
  }

  // ---------------------------------------------------------------- rebuilding after a deletion

  datatype Built = Built(keys: seq<string>, info: Info)

  const NOTHING := Built([], Info(0, map[], map[], map[]))

  /** Append a key with whatever state is to be kept for it, at the next free index. */
  function Keep(b: Built, key: string, status: Option<int>, time: Option<int>, reason: Option<string>): (r: Built) {
    var n := |b.keys|;
    Built(b.keys + [key],
          Info(n + 1,
               if status.Some? then b.info.status[n := status.value] else b.info.status,
               if time.Some? then b.info.time[n := time.value] else b.info.time,
               if reason.Some? then b.info.reason[n := reason.value] else b.info.reason))
  }

  function Find<T>(m: map<int, T>, i: int): (r: Option<T>) {
    if i in m then Some(m[i]) else None
  }

  /** The loop of delete_key over the first n keys. */
  function WithoutKey(keys: seq<string>, info: Info, index: int, n: nat): (b: Built)
    requires n <= |keys|
  {
    if n == 0 then NOTHING
    else
      var b, i := WithoutKey(keys, info, index, n - 1), n - 1;
      if i == index then b
      else Keep(b, keys[i], if StatusAt(info, i) != ENABLED then Find(info.status, i) else None,
                Find(info.time, i), Find(info.reason, i))
  }

  /** The loop of delete_disabled_keys over the first n keys. */
  function WithoutAutoDisabled(keys: seq<string>, info: Info, n: nat): (b: Built)
    requires n <= |keys|
  {
    if n == 0 then NOTHING
    else
      var b, i := WithoutAutoDisabled(keys, info, n - 1), n - 1;
      if StatusAt(info, i) == AUTO_DISABLED then b
      else if StatusAt(info, i) == ENABLED then Keep(b, keys[i], None, None, None)
      else Keep(b, keys[i], Find(info.status, i), Find(info.time, i), Find(info.reason, i))
  }

  ghost predicate BuiltOk(b: Built) {
    b.info.size == |b.keys| && Within(b.info, |b.keys|) && NoLeftovers(b.info)
  }

  lemma KeepRecords(b: Built, key: string, status: Option<int>, time: Option<int>, reason: Option<string>)
    requires BuiltOk(b) && status != Some(ENABLED) && (time.Some? || reason.Some? ==> status.Some?)
    ensures var r := Keep(b, key, status, time, reason);
            && BuiltOk(r)
            && Records(r.keys, r.info) ==
                 Records(b.keys, b.info) + [Rec(key, if status.Some? then status.value else ENABLED, time, reason)]
  {
    var r := Keep(b, key, status, time, reason);
    forall i | 0 <= i < |b.keys| ensures RecAt(r.keys[i], r.info, i) == RecAt(b.keys[i], b.info, i) {}
  }

  function Remove<T>(s: seq<T>, index: int): (r: seq<T>) {
    if 0 <= index < |s| then s[..index] + s[index + 1..] else s
  }

  predicate Survives(r: Rec) {
    r.status != AUTO_DISABLED
  }

  function Survivors(s: seq<Rec>): (r: seq<Rec>) {
    if s == [] then []
    else
      var init := Survivors(s[..|s| - 1]);
      if Survives(s[|s| - 1]) then init + [s[|s| - 1]] else init
  }

  function KeysOf(s: seq<Rec>): (r: seq<string>)
    ensures |r| == |s| && forall i :: 0 <= i < |s| ==> r[i] == s[i].key
  {
    seq(|s|, i requires 0 <= i < |s| => s[i].key)
  }

  lemma RemoveSnoc<T>(s: seq<T>, index: int, i: nat)
    requires i < |s|
    ensures Remove(s[..i + 1], index) == if i == index then s[..i] else Remove(s[..i], index) + [s[i]]
  {
    assert s[..i + 1] == s[..i] + [s[i]];
  }

  /** delete_key rebuilds exactly the other records, in order, with their states moved along. */
  lemma {:induction false} WithoutKeyIs(keys: seq<string>, info: Info, index: int, n: nat)
    requires n <= |keys| && NoLeftovers(info)
    ensures var b := WithoutKey(keys, info, index, n);
            BuiltOk(b) && Records(b.keys, b.info) == Remove(Records(keys, info)[..n], index)
  {
    if n > 0 {
      var all, b, i := Records(keys, info), WithoutKey(keys, info, index, n - 1), n - 1;
      WithoutKeyIs(keys, info, index, n - 1);
      RemoveSnoc(all, index, i);
      if i != index {
        KeepRecords(b, keys[i], if StatusAt(info, i) != ENABLED then Find(info.status, i) else None,
                    Find(info.time, i), Find(info.reason, i));
      }
    }
  }

  lemma {:induction false} WithoutAutoDisabledIs(keys: seq<string>, info: Info, n: nat)
    requires n <= |keys| && NoLeftovers(info)
    ensures var b := WithoutAutoDisabled(keys, info, n);
            BuiltOk(b) && Records(b.keys, b.info) == Survivors(Records(keys, info)[..n])
  {
    if n > 0 {
      var all, b, i := Records(keys, info), WithoutAutoDisabled(keys, info, n - 1), n - 1;
      WithoutAutoDisabledIs(keys, info, n - 1);
      assert all[..n][..i] == all[..i] && all[..n][i] == all[i];
      if StatusAt(info, i) == ENABLED {
        KeepRecords(b, keys[i], None, None, None);
      } else if StatusAt(info, i) != AUTO_DISABLED {
        KeepRecords(b, keys[i], Find(info.status, i), Find(info.time, i), Find(info.reason, i));
      }
    }
  }

  // ---------------------------------------------------------------- the actions on stored rows

  datatype Action =
    | DisableKey(index: Option<int>)
    | EnableKey(index: Option<int>)
    | EnableAll
    | DisableAll
    | DeleteKey(index: Option<int>)
    | DeleteDisabled
    | AutoDisable(usingKey: string, now: int, why: string)

  datatype Reply = Refused | Done(count: nat)

  /** The loop of disable_all_keys over the first n indices. */
  function DisableUpTo(status: map<int, int>, n: nat): (r: map<int, int>) {
    if n == 0 then status
    else
      var s := DisableUpTo(status, n - 1);
      if (if n - 1 in s then s[n - 1] else ENABLED) == ENABLED then s[n - 1 := MANUALLY_DISABLED] else s
  }

  function CountEnabled(info: Info, n: nat): (c: nat) {
    if n == 0 then 0 else CountEnabled(info, n - 1) + if StatusAt(info, n - 1) == ENABLED then 1 else 0
  }

  /** The first position of a key, or the length of the list. */
  function FirstIndex(keys: seq<string>, key: string): (i: nat)
    ensures i <= |keys| && (i < |keys| ==> keys[i] == key) && key !in keys[..i]
  {
    if keys == [] || keys[0] == key then 0
    else
      var i := 1 + FirstIndex(keys[1..], key);
      assert keys[..i] == [keys[0]] + keys[1..][..i - 1];
      i
  }

  predicate InRange(row: Row, index: Option<int>) {
    index.Some? && 0 <= index.value < row.info.size
  }

  function Save(row: Row, b: Built, json: Json): (r: Row) {
    Update(row, Join(b.keys, '\n'), b.info, json)
  }

  function EnableEvery(row: Row, json: Json): (r: (Row, Reply)) {
    (Update(row, row.key, row.info.(status := map[], time := map[], reason := map[]), json), Done(|row.info.status|))
  }

  function DisableEvery(row: Row, json: Json): (r: (Row, Reply)) {
    var n := if row.info.size > 0 then row.info.size else 0;
    var count := CountEnabled(row.info, n);
    if count == 0 then (row, Refused)
    else (Update(row, row.key, row.info.(status := DisableUpTo(row.info.status, n)), json), Done(count))
  }

  function DeleteAt(row: Row, index: Option<int>, json: Json): (r: (Row, Reply)) {
    if !InRange(row, index) then (row, Refused)
    else
      var keys := GetKeys(row.key, json);
      KeepRest(row, WithoutKey(keys, row.info, index.value, |keys|), json)
  }

  /** Store what is left, unless it is nothing. */
  function KeepRest(row: Row, b: Built, json: Json): (r: (Row, Reply)) {
    if b.keys == [] then (row, Refused) else (Save(row, b, json), Done(0))
  }

  /** Store what is left of n keys, unless nothing was dropped. */
  function DropTo(row: Row, b: Built, n: nat, json: Json): (r: (Row, Reply)) {
    if |b.keys| >= n then (row, Refused) else (Save(row, b, json), Done(n - |b.keys|))
  }

  function DeleteAutoDisabled(row: Row, json: Json): (r: (Row, Reply)) {
    var keys := GetKeys(row.key, json);
    DropTo(row, WithoutAutoDisabled(keys, row.info, |keys|), |keys|, json)
  }

  function Disable(info: Info, i: int): (r: Info) {
    info.(status := info.status[i := MANUALLY_DISABLED])
  }

  function Forget(info: Info, i: int): (r: Info) {
    info.(status := info.status - {i}, time := info.time - {i}, reason := info.reason - {i})
  }

  function Mark(info: Info, i: int, now: int, why: string): (r: Info) {
    info.(status := info.status[i := AUTO_DISABLED], time := info.time[i := now], reason := info.reason[i := why])
  }

  function DisableAt(row: Row, index: Option<int>, json: Json): (r: (Row, Reply)) {
    if !InRange(row, index) then (row, Refused)
    else (Update(row, row.key, Disable(row.info, index.value), json), Done(0))
  }

  function EnableAt(row: Row, index: Option<int>, json: Json): (r: (Row, Reply)) {
    if !InRange(row, index) then (row, Refused)
    else (Update(row, row.key, Forget(row.info, index.value), json), Done(0))
  }

  function AutoDisableAt(row: Row, key: string, now: int, why: string, json: Json): (r: (Row, Reply)) {
    var keys := GetKeys(row.key, json);
    var i := FirstIndex(keys, key);
    if i == |keys| then (row, Refused) else (Row(row.key, Mark(row.info, i, now, why)), Done(0))
  }

  /** One request of ManageMultiKeys, or an automatic disabling by handlerMultiKeyUpdate. */
  function Act(row: Row, a: Action, json: Json): (r: (Row, Reply)) {
    match a
    case DisableKey(index) => DisableAt(row, index, json)
    case EnableKey(index) => EnableAt(row, index, json)
    case EnableAll => EnableEvery(row, json)
    case DisableAll => DisableEvery(row, json)
    case DeleteKey(index) => DeleteAt(row, index, json)
    case DeleteDisabled => DeleteAutoDisabled(row, json)
    case AutoDisable(key, now, why) => AutoDisableAt(row, key, now, why, json)
  }

  function Run(row: Row, actions: seq<Action>, json: Json): (r: Row) {
    if actions == [] then row else Act(Run(row, actions[..|actions| - 1], json), actions[|actions| - 1], json).0
  }

  // ---------------------------------------------------------------- the same actions on plain records

  function Enabled(r: Rec): (e: Rec) {
    Rec(r.key, ENABLED, None, None)
  }

  function Disabled(r: Rec): (d: Rec) {
    if r.status == ENABLED then r.(status := MANUALLY_DISABLED) else r
  }

  function Each(s: seq<Rec>, f: Rec -> Rec): (r: seq<Rec>)
    ensures |r| == |s| && forall i :: 0 <= i < |s| ==> r[i] == f(s[i])
  {
    seq(|s|, i requires 0 <= i < |s| => f(s[i]))
  }

  function CountEnabledRecs(s: seq<Rec>): (c: nat) {
    if s == [] then 0 else CountEnabledRecs(s[..|s| - 1]) + if s[|s| - 1].status == ENABLED then 1 else 0
  }

  function CountOthers(s: seq<Rec>): (c: nat) {
    if s == [] then 0 else CountOthers(s[..|s| - 1]) + if s[|s| - 1].status == ENABLED then 0 else 1
  }

  predicate Inside(s: seq<Rec>, index: Option<int>) {
    index.Some? && 0 <= index.value < |s|
  }

  function DisableEach(s: seq<Rec>): (r: (seq<Rec>, Reply)) {
    if CountEnabledRecs(s) == 0 then (s, Refused) else (Each(s, Disabled), Done(CountEnabledRecs(s)))
  }

  /** Filter by status, except that a request which leaves no key keeps and re-enables every one of them. */
  function DropAutoDisabled(s: seq<Rec>): (r: (seq<Rec>, Reply)) {
    var left := Survivors(s);
    if |left| >= |s| then (s, Refused)
    else (if left == [] then Each(s, Enabled) else left, Done(|s| - |left|))
  }

  function DisableRec(s: seq<Rec>, index: Option<int>): (r: (seq<Rec>, Reply)) {
    if !Inside(s, index) then (s, Refused)
    else (s[index.value := s[index.value].(status := MANUALLY_DISABLED)], Done(0))
  }

  function EnableRec(s: seq<Rec>, index: Option<int>): (r: (seq<Rec>, Reply)) {
    if !Inside(s, index) then (s, Refused) else (s[index.value := Enabled(s[index.value])], Done(0))
  }

  /** Remove at the index, unless it is the last key. */
  function DeleteRec(s: seq<Rec>, index: Option<int>): (r: (seq<Rec>, Reply)) {
    if !Inside(s, index) || |s| == 1 then (s, Refused) else (Remove(s, index.value), Done(0))
  }

  function AutoDisableRec(s: seq<Rec>, key: string, now: int, why: string): (r: (seq<Rec>, Reply)) {
    var i := FirstIndex(KeysOf(s), key);
    if i == |s| then (s, Refused) else (s[i := Rec(key, AUTO_DISABLED, Some(now), Some(why))], Done(0))
  }

  /** What each action means for the list of records. */
  function Apply(s: seq<Rec>, a: Action): (r: (seq<Rec>, Reply)) {
    match a
    case DisableKey(index) => DisableRec(s, index)
    case EnableKey(index) => EnableRec(s, index)
    case EnableAll => (Each(s, Enabled), Done(CountOthers(s)))
    case DisableAll => DisableEach(s)
    case DeleteKey(index) => DeleteRec(s, index)
    case DeleteDisabled => DropAutoDisabled(s)
    case AutoDisable(key, now, why) => AutoDisableRec(s, key, now, why)
  }

  function ApplyAll(s: seq<Rec>, actions: seq<Action>): (r: seq<Rec>) {
    if actions == [] then s else Apply(ApplyAll(s, actions[..|actions| - 1]), actions[|actions| - 1]).0
  }

  // ---------------------------------------------------------------- actions that leave the key text alone

  /** Saving an unchanged key list keeps an in-range info as it is. */
  lemma SaveSameKeys(row: Row, info: Info, json: Json)
    requires Aligned(row, json) && Within(info, row.info.size) && info.size == row.info.size
    ensures Update(row, row.key, info, json) == Row(row.key, info)
  {
    assert Below(info.status, info.size) == info.status;
  }

  lemma KeysOfRecords(keys: seq<string>, info: Info)
    ensures KeysOf(Records(keys, info)) == keys
  {
  }

  /** Changing the state at one index only changes that record. */
  lemma RecordsExcept(keys: seq<string>, info: Info, info': Info, i: nat)
    requires i < |keys|
    requires forall k :: k != i ==> RecAt("", info', k) == RecAt("", info, k)
    ensures Records(keys, info') == Records(keys, info)[i := RecAt(keys[i], info', i)]
  {
    forall k | 0 <= k < |keys| && k != i ensures RecAt(keys[k], info', k) == RecAt(keys[k], info, k) {
      assert RecAt("", info', k) == RecAt("", info, k);
    }
  }

  lemma DisableKeyRefines(row: Row, i: int, json: Json)
    requires Aligned(row, json) && 0 <= i < row.info.size
    ensures var r := Update(row, row.key, Disable(row.info, i), json);
            && Aligned(r, json) && r.key == row.key
            && View(r, json) == View(row, json)[i := View(row, json)[i].(status := MANUALLY_DISABLED)]
  {
    SaveSameKeys(row, Disable(row.info, i), json);
    RecordsExcept(GetKeys(row.key, json), row.info, Disable(row.info, i), i);
  }

  lemma EnableKeyRefines(row: Row, i: int, json: Json)
    requires Aligned(row, json) && 0 <= i < row.info.size
    ensures var r := Update(row, row.key, Forget(row.info, i), json);
            && Aligned(r, json) && r.key == row.key
            && View(r, json) == View(row, json)[i := Enabled(View(row, json)[i])]
  {
    SaveSameKeys(row, Forget(row.info, i), json);
    RecordsExcept(GetKeys(row.key, json), row.info, Forget(row.info, i), i);
  }

  lemma ClearRefines(row: Row, info: Info, json: Json)
    requires Aligned(row, json) && info == row.info.(status := map[], time := map[], reason := map[])
    ensures var r := Update(row, row.key, info, json);
            Aligned(r, json) && r.key == row.key && View(r, json) == Each(View(row, json), Enabled)
  {
    SaveSameKeys(row, info, json);
  }

  lemma {:induction false} DisableUpToIs(info: Info, n: nat, i: int)
    ensures var r := info.(status := DisableUpTo(info.status, n));
            && (i in r.status <==> i in info.status || 0 <= i < n)
            && StatusAt(r, i) ==
                 if 0 <= i < n && StatusAt(info, i) == ENABLED then MANUALLY_DISABLED else StatusAt(info, i)
  {
    if n > 0 {
      DisableUpToIs(info, n - 1, i);
      DisableUpToIs(info, n - 1, n - 1);
    }
  }

  lemma DisableAllRefines(row: Row, json: Json)
    requires Aligned(row, json)
    ensures var info := row.info.(status := DisableUpTo(row.info.status, row.info.size));
            var r := Update(row, row.key, info, json);
            Aligned(r, json) && r.key == row.key && View(r, json) == Each(View(row, json), Disabled)
  {
    var n := row.info.size;
    var info := row.info.(status := DisableUpTo(row.info.status, n));
    forall i ensures (i in info.status <==> i in row.info.status || 0 <= i < n)
                     && StatusAt(info, i) ==
                          if 0 <= i < n && StatusAt(row.info, i) == ENABLED then MANUALLY_DISABLED
                          else StatusAt(row.info, i)
    {
      DisableUpToIs(row.info, n, i);
    }
    forall i | i in info.status ensures info.status[i] != ENABLED { assert StatusAt(info, i) == info.status[i]; }
    SaveSameKeys(row, info, json);
  }

  lemma {:induction false} CountEnabledIs(keys: seq<string>, info: Info, n: nat)
    requires n <= |keys|
    ensures var s := Records(keys, info)[..n];
            CountEnabled(info, n) == CountEnabledRecs(s) == n - CountOthers(s)
  {
    if n > 0 {
      CountEnabledIs(keys, info, n - 1);
      var all := Records(keys, info);
      assert all[..n][..n - 1] == all[..n - 1];
    }
  }

  /** The status map has one entry for every key that is not enabled. */
  lemma {:induction false} CountDisabledIs(info: Info, n: nat, present: set<int>)
    requires NoLeftovers(info)
    requires forall i :: i in present <==> i in info.status && 0 <= i < n
    ensures |present| == n - CountEnabled(info, n)
  {
    if n == 0 {
      assert forall i :: i !in present;
    } else {
      CountDisabledIs(info, n - 1, present - {n - 1});
    }
  }

  lemma AutoDisableRefines(row: Row, i: nat, now: int, why: string, json: Json)
    requires Aligned(row, json) && i < row.info.size
    ensures var r := Row(row.key, Mark(row.info, i, now, why));
            && Aligned(r, json)
            && View(r, json) == View(row, json)[i := Rec(View(row, json)[i].key, AUTO_DISABLED, Some(now), Some(why))]
  {
    RecordsExcept(GetKeys(row.key, json), row.info, Mark(row.info, i, now, why), i);
  }

  // ---------------------------------------------------------------- actions that rewrite the key text

  /** A key that survives being stored on a line of its own. */
  predicate PlainKey(key: string) {
    key != "" && '\n' !in key && !IsSpace(key[0]) && key[0] != '['
  }

  predicate PlainKeys(keys: seq<string>) {
    forall key :: key in keys ==> PlainKey(key)
  }

  lemma {:induction false} TrimRightKeepsStart(s: string)
    requires s != "" && !IsSpace(s[0])
    ensures TrimRight(s, IsSpace) != ""
  {
    if IsSpace(s[|s| - 1]) { TrimRightKeepsStart(s[..|s| - 1]); }
  }

  /** Text that starts with an ordinary character is not taken for an array. */
  lemma OrdinaryStart(s: string)
    requires s != "" && !IsSpace(s[0]) && s[0] != '['
    ensures !LooksLikeArray(s)
  {
    TrimRightKeepsStart(s);
    assert TrimLeft(s, IsSpace) == s;
    assert TrimSpace(s)[0] == s[0];
  }

  lemma JoinFirst(keys: seq<string>)
    requires keys != [] && keys[0] != ""
    ensures Join(keys, '\n') != "" && Join(keys, '\n')[0] == keys[0][0]
  {
  }

  lemma {:induction false} JoinEmpty(keys: seq<string>)
    requires keys != []
    ensures Join(keys, '\n') == "" <==> keys == [""]
  {
    assert |keys| == 1 ==> keys == [keys[0]];
  }

  lemma StoredKeys(keys: seq<string>, json: Json)
    requires keys != [] && PlainKey(keys[0]) && Joinable(keys, '\n')
    ensures var text := Join(keys, '\n');
            text != "" && !IsArray(text, json) && GetKeys(text, json) == keys && CountKeys(text, json) == |keys|
  {
    JoinFirst(keys);
    OrdinaryStart(Join(keys, '\n'));
    JoinSplitRoundTrip(keys, '\n');
  }

  lemma PlainJoinable(keys: seq<string>)
    requires keys != [] && PlainKeys(keys)
    ensures PlainKey(keys[0]) && Joinable(keys, '\n')
  {
    assert keys[0] in keys && keys[|keys| - 1] in keys;
  }

  /** A list that is read back from its joined text: as an array if the text is one, as lines otherwise. */
  predicate Storable(keys: seq<string>, json: Json) {
    var text := Join(keys, '\n');
    if IsArray(text, json) then json(TrimSpace(text)) == Some(keys)
    else Joinable(keys, '\n') && keys != [""]
  }

  /** For a non-empty list that is the same as giving a text whose keys are the list. */
  lemma StorableIs(keys: seq<string>, json: Json)
    requires keys != []
    ensures var text := Join(keys, '\n');
            Storable(keys, json) <==> text != "" && GetKeys(text, json) == keys && CountKeys(text, json) == |keys|
  {
    var text := Join(keys, '\n');
    JoinEmpty(keys);
    JoinSplitRoundTrip(keys, '\n');
  }

  /** Saving a rebuilt list: exactly the storable lists give back what was built. */
  lemma SaveIs(row: Row, b: Built, json: Json)
    requires Aligned(row, json) && BuiltOk(b) && b.keys != [] && |b.keys| < row.info.size
    ensures var r := Save(row, b, json);
            View(r, json) == Records(b.keys, b.info) && Aligned(r, json) <==> Storable(b.keys, json)
  {
    var r := Save(row, b, json);
    StorableIs(b.keys, json);
    KeysOfRecords(GetKeys(r.key, json), r.info);
    KeysOfRecords(b.keys, b.info);
    if Storable(b.keys, json) {
      assert Below(b.info.status, |b.keys|) == b.info.status;
      assert r == Row(Join(b.keys, '\n'), b.info);
    }
  }

  lemma RemoveRecords(keys: seq<string>, info: Info, index: int)
    ensures KeysOf(Remove(Records(keys, info), index)) == Remove(keys, index)
  {
  }

  /** What delete_key rebuilds, in terms of the records. */
  lemma RebuiltWithout(row: Row, index: int, json: Json)
    requires Aligned(row, json) && 0 <= index < row.info.size && row.info.size > 1
    ensures var keys := GetKeys(row.key, json);
            var b := WithoutKey(keys, row.info, index, |keys|);
            && BuiltOk(b) && b.keys == Remove(keys, index) && b.keys != []
            && Records(b.keys, b.info) == Remove(View(row, json), index)
  {
    var keys := GetKeys(row.key, json);
    var b := WithoutKey(keys, row.info, index, |keys|);
    WithoutKeyIs(keys, row.info, index, |keys|);
    assert Records(keys, row.info)[..|keys|] == Records(keys, row.info);
    RemoveRecords(keys, row.info, index);
    KeysOfRecords(b.keys, b.info);
  }

  /** delete_key removes the record at the index exactly when the remaining keys are storable. */
  lemma DeleteKeyExact(row: Row, index: int, json: Json)
    requires Aligned(row, json) && 0 <= index < row.info.size && row.info.size > 1
    ensures var left := Remove(GetKeys(row.key, json), index);
            var r := DeleteAt(row, Some(index), json).0;
            Aligned(r, json) && View(r, json) == Remove(View(row, json), index) <==> Storable(left, json)
  {
    DeleteIsSave(row, index, json);
    RebuiltWithout(row, index, json);
    var keys := GetKeys(row.key, json);
    SaveIs(row, WithoutKey(keys, row.info, index, |keys|), json);
  }

  lemma DeleteIsSave(row: Row, index: int, json: Json)
    requires Aligned(row, json) && 0 <= index < row.info.size && row.info.size > 1
    ensures var keys := GetKeys(row.key, json);
            DeleteAt(row, Some(index), json) ==
            (Save(row, WithoutKey(keys, row.info, index, |keys|), json), Done(0))
  {
    RebuiltWithout(row, index, json);
  }

  lemma {:induction false} SurvivorsWhole(s: seq<Rec>)
    ensures |Survivors(s)| <= |s| && (|Survivors(s)| == |s| ==> Survivors(s) == s)
  {
    if s != [] {
      SurvivorsWhole(s[..|s| - 1]);
      assert s == s[..|s| - 1] + [s[|s| - 1]];
    }
  }

  /** What delete_disabled_keys rebuilds, in terms of the records. */
  lemma RebuiltSurvivors(row: Row, json: Json)
    requires Aligned(row, json)
    ensures var keys := GetKeys(row.key, json);
            var b := WithoutAutoDisabled(keys, row.info, |keys|);
            && BuiltOk(b) && Records(b.keys, b.info) == Survivors(View(row, json))
            && b.keys == KeysOf(Survivors(View(row, json))) && |b.keys| <= |keys|
  {
    var keys := GetKeys(row.key, json);
    var b := WithoutAutoDisabled(keys, row.info, |keys|);
    WithoutAutoDisabledIs(keys, row.info, |keys|);
    assert Records(keys, row.info)[..|keys|] == Records(keys, row.info);
    KeysOfRecords(b.keys, b.info);
    SurvivorsWhole(View(row, json));
  }

  /** delete_disabled_keys drops exactly the auto-disabled records when another one remains and those are storable. */
  lemma DeleteDisabledExact(row: Row, json: Json)
    requires Aligned(row, json) && |Survivors(View(row, json))| < row.info.size
    ensures var left := KeysOf(Survivors(View(row, json)));
            var r := DeleteAutoDisabled(row, json).0;
            Aligned(r, json) && View(r, json) == Survivors(View(row, json)) <==> left != [] && Storable(left, json)
  {
    var keys := GetKeys(row.key, json);
    var b := WithoutAutoDisabled(keys, row.info, |keys|);
    RebuiltSurvivors(row, json);
    if b.keys == [] {
      AllDeletedIsCleared(row, b, json);
    } else {
      SaveIs(row, b, json);
    }
  }

  /** With nothing left to store, the old key text stays and every status is gone. */
  lemma AllDeletedIsCleared(row: Row, b: Built, json: Json)
    requires Aligned(row, json) && b.keys == [] && BuiltOk(b)
    ensures var r := Save(row, b, json);
            r.key == row.key && Aligned(r, json) && View(r, json) == Each(View(row, json), Enabled)
  {
    var r := Save(row, b, json);
    assert forall i :: i !in b.info.status && i !in b.info.time && i !in b.info.reason;
    assert r.info.time == b.info.time && r.info.reason == b.info.reason;
    assert forall i :: i !in r.info.status;
  }

  // ---------------------------------------------------------------- every sequence of actions

  /** The stored row is aligned and shows the records an action leaves, and the reply is the same. */
  ghost predicate Shows(r: (Row, Reply), p: (seq<Rec>, Reply), json: Json) {
    r.1 == p.1 && Aligned(r.0, json) && View(r.0, json) == p.0
  }

  /** What an action needs: the keys a deletion leaves are storable. */
  predicate Safe(s: seq<Rec>, a: Action, json: Json) {
    match a
    case DeleteKey(index) => Inside(s, index) && |s| > 1 ==> Storable(KeysOf(Remove(s, index.value)), json)
    case DeleteDisabled => 0 < |Survivors(s)| < |s| ==> Storable(KeysOf(Survivors(s)), json)
    case _ => true
  }

  lemma DisableAtShows(row: Row, index: Option<int>, json: Json)
    requires Aligned(row, json)
    ensures Shows(DisableAt(row, index, json), DisableRec(View(row, json), index), json)
  {
    if InRange(row, index) { DisableKeyRefines(row, index.value, json); }
  }

  lemma EnableAtShows(row: Row, index: Option<int>, json: Json)
    requires Aligned(row, json)
    ensures Shows(EnableAt(row, index, json), EnableRec(View(row, json), index), json)
  {
    if InRange(row, index) { EnableKeyRefines(row, index.value, json); }
  }

  lemma AutoDisableAtShows(row: Row, key: string, now: int, why: string, json: Json)
    requires Aligned(row, json)
    ensures Shows(AutoDisableAt(row, key, now, why, json), AutoDisableRec(View(row, json), key, now, why), json)
  {
    var keys := GetKeys(row.key, json);
    KeysOfRecords(keys, row.info);
    if FirstIndex(keys, key) < |keys| { AutoDisableRefines(row, FirstIndex(keys, key), now, why, json); }
  }

  lemma DeleteAtShows(row: Row, index: Option<int>, json: Json)
    requires Aligned(row, json)
    ensures Shows(DeleteAt(row, index, json), DeleteRec(View(row, json), index), json) <==>
            Safe(View(row, json), DeleteKey(index), json)
  {
    if InRange(row, index) {
      if row.info.size == 1 { LastKeyStays(row, json); } else { DeleteOneShows(row, index.value, json); }
    }
  }

  lemma LastKeyStays(row: Row, json: Json)
    requires Aligned(row, json) && row.info.size == 1
    ensures DeleteAt(row, Some(0), json) == (row, Refused)
  {
    WithoutKeyIs(GetKeys(row.key, json), row.info, 0, 1);
  }

  lemma DeleteOneShows(row: Row, index: int, json: Json)
    requires Aligned(row, json) && 0 <= index < row.info.size && row.info.size > 1
    ensures Shows(DeleteAt(row, Some(index), json), (Remove(View(row, json), index), Done(0)), json) <==>
            Storable(KeysOf(Remove(View(row, json), index)), json)
  {
    DeleteIsSave(row, index, json);
    DeleteKeyExact(row, index, json);
    RemoveRecords(GetKeys(row.key, json), row.info, index);
  }

  lemma DeleteAutoDisabledShows(row: Row, json: Json)
    requires Aligned(row, json)
    ensures Shows(DeleteAutoDisabled(row, json), DropAutoDisabled(View(row, json)), json) <==>
            Safe(View(row, json), DeleteDisabled, json)
  {
    var keys := GetKeys(row.key, json);
    var b := WithoutAutoDisabled(keys, row.info, |keys|);
    RebuiltSurvivors(row, json);
    if b.keys == [] {
      AllDeletedIsCleared(row, b, json);
    } else if |b.keys| < |keys| {
      SaveIs(row, b, json);
    }
  }

  lemma EnableEveryShows(row: Row, json: Json)
    requires Aligned(row, json)
    ensures Shows(EnableEvery(row, json), (Each(View(row, json), Enabled), Done(CountOthers(View(row, json)))), json)
  {
    var keys, info := GetKeys(row.key, json), row.info;
    ClearRefines(row, info.(status := map[], time := map[], reason := map[]), json);
    CountDisabledIs(info, |keys|, info.status.Keys);
    CountEnabledIs(keys, info, |keys|);
    assert View(row, json)[..|keys|] == View(row, json);
  }

  lemma DisableEveryShows(row: Row, json: Json)
    requires Aligned(row, json)
    ensures Shows(DisableEvery(row, json), DisableEach(View(row, json)), json)
  {
    var keys := GetKeys(row.key, json);
    DisableAllRefines(row, json);
    CountEnabledIs(keys, row.info, |keys|);
    assert View(row, json)[..|keys|] == View(row, json);
  }

  /** One action on any aligned row is the same action on its records, with the same reply, exactly when it is safe. */
  lemma ActRefines(row: Row, a: Action, json: Json)
    requires Aligned(row, json)
    ensures Shows(Act(row, a, json), Apply(View(row, json), a), json) <==> Safe(View(row, json), a, json)
  {
    var s := View(row, json);
    match a
    case DisableKey(index) =>
      assert Act(row, a, json) == DisableAt(row, index, json) && Apply(s, a) == DisableRec(s, index);
      DisableAtShows(row, index, json);
    case EnableKey(index) =>
      assert Act(row, a, json) == EnableAt(row, index, json) && Apply(s, a) == EnableRec(s, index);
      EnableAtShows(row, index, json);
    case EnableAll =>
      assert Act(row, a, json) == EnableEvery(row, json);
      EnableEveryShows(row, json);
    case DisableAll =>
      assert Act(row, a, json) == DisableEvery(row, json) && Apply(s, a) == DisableEach(s);
      DisableEveryShows(row, json);
    case DeleteKey(index) =>
      assert Act(row, a, json) == DeleteAt(row, index, json) && Apply(s, a) == DeleteRec(s, index);
      DeleteAtShows(row, index, json);
    case DeleteDisabled =>
      assert Act(row, a, json) == DeleteAutoDisabled(row, json) && Apply(s, a) == DropAutoDisabled(s);
      DeleteAutoDisabledShows(row, json);
    case AutoDisable(key, now, why) =>
      assert Act(row, a, json) == AutoDisableAt(row, key, now, why, json);
      assert Apply(s, a) == AutoDisableRec(s, key, now, why);
      AutoDisableAtShows(row, key, now, why, json);
  }

  /** Each action in turn leaves an aligned row that shows what the list operations give, and replies as they do. */
  ghost predicate InStep(row: Row, actions: seq<Action>, json: Json) {
    actions == [] ||
    var before, last := actions[..|actions| - 1], actions[|actions| - 1];
    && InStep(row, before, json)
    && Shows(Act(Run(row, before, json), last, json), Apply(ApplyAll(View(row, json), before), last), json)
  }

  /** Every action is safe for the records it meets. */
  predicate AllSafe(s: seq<Rec>, actions: seq<Action>, json: Json) {
    actions == [] ||
    var before, last := actions[..|actions| - 1], actions[|actions| - 1];
    AllSafe(s, before, json) && Safe(ApplyAll(s, before), last, json)
  }

  /**
    Every sequence of actions on any aligned row: each action does to the records what the plain list operation does,
    replies the same and keeps size, key text and the three maps aligned, exactly when each deletion leaves storable
    keys.
   */
  lemma {:induction false} RunRefines(row: Row, actions: seq<Action>, json: Json)
    requires Aligned(row, json)
    ensures InStep(row, actions, json) <==> AllSafe(View(row, json), actions, json)
    ensures InStep(row, actions, json) ==>
            var r := Run(row, actions, json); Aligned(r, json) && View(r, json) == ApplyAll(View(row, json), actions)
  {
    if actions != [] {
      var before, last := actions[..|actions| - 1], actions[|actions| - 1];
      RunRefines(row, before, json);
      if InStep(row, before, json) { ActRefines(Run(row, before, json), last, json); }
    }
  }

  // ---------------------------------------------------------------- plain keys

  ghost predicate PlainRecs(s: seq<Rec>) {
    forall r :: r in s ==> PlainKey(r.key)
  }

  lemma PlainStorable(s: seq<Rec>, json: Json)
    requires PlainRecs(s) && s != []
    ensures Storable(KeysOf(s), json)
  {
    var keys := KeysOf(s);
    forall key | key in keys ensures PlainKey(key) {
      var i :| 0 <= i < |keys| && keys[i] == key;
      assert s[i] in s;
    }
    PlainJoinable(keys);
    StoredKeys(keys, json);
    StorableIs(keys, json);
  }

  lemma {:induction false} SurvivorsIn(s: seq<Rec>)
    ensures forall r :: r in Survivors(s) ==> r in s
  {
    if s != [] { SurvivorsIn(s[..|s| - 1]); }
  }

  lemma PlainSafe(s: seq<Rec>, a: Action, json: Json)
    requires PlainRecs(s)
    ensures Safe(s, a, json)
  {
    if a.DeleteKey? && Inside(s, a.index) && |s| > 1 { PlainStorable(Remove(s, a.index.value), json); }
    if a.DeleteDisabled? && 0 < |Survivors(s)| < |s| {
      SurvivorsIn(s);
      PlainStorable(Survivors(s), json);
    }
  }

  lemma EachPlain(s: seq<Rec>, f: Rec -> Rec)
    requires PlainRecs(s) && forall r :: f(r).key == r.key
    ensures PlainRecs(Each(s, f))
  {
    forall r | r in Each(s, f) ensures PlainKey(r.key) {
      var i :| 0 <= i < |s| && Each(s, f)[i] == r;
      assert s[i] in s;
    }
  }

  lemma ApplyPlain(s: seq<Rec>, a: Action)
    requires PlainRecs(s)
    ensures PlainRecs(Apply(s, a).0)
  {
    EachPlain(s, Enabled);
    EachPlain(s, Disabled);
    SurvivorsIn(s);
    var r := Apply(s, a).0;
    if a.AutoDisable? {
      var i := FirstIndex(KeysOf(s), a.usingKey);
      if i < |s| { assert s[i] in s && KeysOf(s)[i] == a.usingKey; }
    }
  }

  /** Keys that start with an ordinary character and fit on a line: every sequence of actions is safe. */
  lemma {:induction false} PlainAllSafe(s: seq<Rec>, actions: seq<Action>, json: Json)
    requires PlainRecs(s)
    ensures AllSafe(s, actions, json) && PlainRecs(ApplyAll(s, actions))
  {
    if actions != [] {
      var before, last := actions[..|actions| - 1], actions[|actions| - 1];
      PlainAllSafe(s, before, json);
      ApplyPlain(ApplyAll(s, before), last);
      PlainSafe(ApplyAll(s, before), last, json);
    }
  }

  lemma {:induction false} SurvivorsEmpty(s: seq<Rec>)
    ensures Survivors(s) == [] <==> forall r :: r in s ==> r.status == AUTO_DISABLED
  {
    if s != [] {
      var init := s[..|s| - 1];
      SurvivorsEmpty(init);
      assert s == init + [s[|s| - 1]];
      assert s[|s| - 1] in s;
      assert forall r :: r in init ==> r in s;
    }
  }

  /** The failing case: the keys of a channel that are all auto-disabled are reported as deleted and come back enabled. */
  lemma DeletedKeysComeBack(row: Row, json: Json)
    requires Aligned(row, json) && View(row, json) != []
    requires forall r :: r in View(row, json) ==> r.status == AUTO_DISABLED
    ensures var r := DeleteAutoDisabled(row, json);
            r.1 == Done(|View(row, json)|) && Aligned(r.0, json) && View(r.0, json) == Each(View(row, json), Enabled)
  {
    SurvivorsEmpty(View(row, json));
    DeleteAutoDisabledShows(row, json);
  }

  /** Automatic re-enabling only drops the status: the maps stay aligned exactly when no time or reason was stored. */
  lemma AutoEnableLeavesMarks(row: Row, i: nat, json: Json)
    requires Aligned(row, json) && i < row.info.size
    ensures Aligned(Row(row.key, row.info.(status := row.info.status - {i})), json) <==>
            i !in row.info.time && i !in row.info.reason
  {
    var info := row.info.(status := row.info.status - {i});
    assert forall k :: k in info.status <==> k in row.info.status && k != i;
  }
}
