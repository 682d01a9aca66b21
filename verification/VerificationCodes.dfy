/** The expiring verification-code store of common/verification.go against the full log of its events. */
module VerificationCodes {

  datatype Value = Value(code: string, time: int)   // time in nanoseconds of a clock that never goes back

  type Store = map<string, Value>

  const MAX_SIZE := 10
  const NANOS := 1_000_000_000

  /** int(d.Seconds()): whole seconds, towards zero. */
  function WholeSeconds(d: int): (s: int) {
    if d >= 0 then d / NANOS else -((-d) / NANOS)
  }

  predicate Stale(v: Value, validMinutes: int, now: int) {
    WholeSeconds(now - v.time) >= validMinutes * 60
  }

  function Pruned(store: Store, validMinutes: int, now: int): (s: Store) {
    map k | k in store && !Stale(store[k], validMinutes, now) :: store[k]
  }

  /** RegisterVerificationCodeWithKey; the clock is read once for the entry and once more if expired pairs are removed. */
  function Registered(store: Store, purpose: string, key: string, code: string, validMinutes: int, at: int, prunedAt: int)
    : (s: Store)
  {
    var added := store[purpose + key := Value(code, at)];
    if |added| > MAX_SIZE then Pruned(added, validMinutes, prunedAt) else added
  }

  predicate Verifies(store: Store, purpose: string, key: string, code: string, validMinutes: int, now: int) {
    && purpose + key in store
    && !Stale(store[purpose + key], validMinutes, now)
    && store[purpose + key].code == code
  }

  class VerificationStore {
    var codes: Store
    const validMinutes: int

    constructor (validMinutes: int)
      ensures codes == map[] && this.validMinutes == validMinutes
    {
      codes := map[];
      this.validMinutes := validMinutes;
    }

    method Register(key: string, code: string, purpose: string, at: int, prunedAt: int)
      modifies this
      ensures codes == Registered(old(codes), purpose, key, code, validMinutes, at, prunedAt)
    {
      codes := codes[purpose + key := Value(code, at)];
      if |codes| > MAX_SIZE { RemoveExpiredPairs(prunedAt); }
    }

    method Verify(key: string, code: string, purpose: string, now: int) returns (ok: bool)
      ensures ok == Verifies(codes, purpose, key, code, validMinutes, now)
    {
      if purpose + key !in codes { return false; }
      var value := codes[purpose + key];
      if WholeSeconds(now - value.time) >= validMinutes * 60 { return false; }
      return code == value.code;
    }

    method Delete(key: string, purpose: string)
      modifies this
      ensures codes == old(codes) - {purpose + key}
    {
      codes := codes - {purpose + key};
    }

    method RemoveExpiredPairs(now: int)
      modifies this
      ensures codes == Pruned(old(codes), validMinutes, now)
    {
      ghost var before := codes;
      var todo := codes.Keys;
      while todo != {}
        invariant codes.Keys <= before.Keys && todo <= codes.Keys
        invariant forall k :: k in codes ==> codes[k] == before[k]
        invariant forall k :: k in before && k !in todo ==> (k in codes <==> !Stale(before[k], validMinutes, now))
        decreases |todo|
      {
        var key :| key in todo;
        todo := todo - {key};
        if WholeSeconds(now - codes[key].time) >= validMinutes * 60 { codes := codes - {key}; }
      }
    }
  }

  // ---------------------------------------------------------------- runs and the log

  datatype Event =
    | Register(purpose: string, key: string, code: string, at: int, prunedAt: int)
    | Delete(purpose: string, key: string, at: int)

  function EndOf(e: Event): (t: int) {
    if e.Register? then e.prunedAt else e.at
  }

  function Step(store: Store, e: Event, validMinutes: int): (s: Store) {
    match e
    case Register(purpose, key, code, at, prunedAt) => Registered(store, purpose, key, code, validMinutes, at, prunedAt)
    case Delete(purpose, key, _) => store - {purpose + key}
  }

  function Run(log: seq<Event>, validMinutes: int): (s: Store) {
    if log == [] then map[] else Step(Run(log[..|log| - 1], validMinutes), log[|log| - 1], validMinutes)
  }

  /** The clock never goes back: within an event, from one event to the next, and up to the moment of asking. */
  ghost predicate Monotone(log: seq<Event>, now: int) {
    && (forall i :: 0 <= i < |log| ==> log[i].at <= EndOf(log[i]) <= now)
    && (forall i, j :: 0 <= i < j < |log| ==> EndOf(log[i]) <= log[j].at)
  }

  /** What the log says of one purpose and key: its latest event decides, for as many minutes as a code is valid. */
  predicate LogVerifies(log: seq<Event>, purpose: string, key: string, code: string, validMinutes: int, now: int) {
    if log == [] then false
    else
      var last := log[|log| - 1];
      if last.purpose == purpose && last.key == key
      then last.Register? && last.code == code && now - last.at < validMinutes * 60 * 1_000_000_000
      else LogVerifies(log[..|log| - 1], purpose, key, code, validMinutes, now)
  }

  ghost predicate Uses(log: seq<Event>, purposes: set<string>) {
    forall e :: e in log ==> e.purpose in purposes
  }

  /** Every answer in every run with these purposes is the log's answer: pruning and other keys are invisible. */
  ghost predicate AnswersAsLog(purposes: set<string>, validMinutes: int) {
    forall log: seq<Event>, purpose: string, key: string, code: string, now: int ::
      Uses(log, purposes) && purpose in purposes && Monotone(log, now) ==>
      AnswersAlike(log, purpose, key, code, validMinutes, now)
  }

  ghost predicate AnswersAlike(log: seq<Event>, purpose: string, key: string, code: string, validMinutes: int, now: int) {
    Verifies(Run(log, validMinutes), purpose, key, code, validMinutes, now) <==>
    LogVerifies(log, purpose, key, code, validMinutes, now)
  }

  /** No purpose is a prefix of another one. */
  ghost predicate PrefixFree(purposes: set<string>) {
    forall p, q :: p in purposes && q in purposes && p <= q ==> p == q
  }

  lemma DistinctKeys(purposes: set<string>, p: string, k: string, q: string, l: string)
    requires PrefixFree(purposes) && p in purposes && q in purposes && p + k == q + l
    ensures p == q && k == l
  {
    var whole := p + k;
    assert p == whole[..|p|] && q == whole[..|q|];
    assert p <= q || q <= p;
    assert k == whole[|p|..] && l == whole[|q|..];
  }

  /** A code is stale from the nanosecond on at which its minutes are over. */
  lemma StaleMeans(v: Value, validMinutes: int, now: int)
    requires v.time <= now
    ensures Stale(v, validMinutes, now) <==> now - v.time >= validMinutes * 60 * 1_000_000_000
  {
    assert validMinutes * 60 * NANOS == (validMinutes * 60) * 1_000_000_000;
  }

  /** Nothing is dropped below the limit; more codes are kept only if none was stale when the last one came. */
  lemma StoreIsBounded(store: Store, e: Event, validMinutes: int)
    requires e.Register? && e.at <= e.prunedAt && forall k :: k in store ==> store[k].time <= e.prunedAt
    ensures var s := Step(store, e, validMinutes);
            && (|store| < 10 ==> s == store[e.purpose + e.key := Value(e.code, e.at)])
            && (|s| > 10 ==> forall k :: k in s ==> e.prunedAt - s[k].time < validMinutes * 60 * 1_000_000_000)
  {
    assert store[e.purpose + e.key := Value(e.code, e.at)].Keys == store.Keys + {e.purpose + e.key};
    var s := Step(store, e, validMinutes);
    if |s| > 10 {
      forall k | k in s ensures e.prunedAt - s[k].time < validMinutes * 60 * 1_000_000_000 {
        StaleMeans(s[k], validMinutes, e.prunedAt);
      }
    }
  }

  lemma StaleForever(v: Value, validMinutes: int, now: int, later: int)
    requires now <= later && Stale(v, validMinutes, now)
    ensures Stale(v, validMinutes, later)
  {
  }

  /** One step of the store: it forgets an entry only when the event is about it or the entry is stale. */
  lemma StepEntry(store: Store, e: Event, validMinutes: int, k: string)
    requires k != e.purpose + e.key
    ensures var s := Step(store, e, validMinutes);
            && (k in s ==> k in store && s[k] == store[k])
            && (k in store && k !in s ==> e.Register? && Stale(store[k], validMinutes, e.prunedAt))
  {
  }

  /** An entry just registered is there unless it is already stale. */
  lemma StepOwn(store: Store, e: Event, validMinutes: int)
    ensures var s := Step(store, e, validMinutes);
            var k := e.purpose + e.key;
            if e.Delete? then k !in s
            else
              && (k in s ==> s[k] == Value(e.code, e.at))
              && (k !in s ==> Stale(Value(e.code, e.at), validMinutes, e.prunedAt))
  {
  }

  lemma {:induction false} EveryAnswer(purposes: set<string>, log: seq<Event>, purpose: string, key: string, code: string,
                                       validMinutes: int, now: int)
    requires PrefixFree(purposes) && Uses(log, purposes) && purpose in purposes && Monotone(log, now)
    ensures AnswersAlike(log, purpose, key, code, validMinutes, now)
  {
    if log != [] {
      var before, last := log[..|log| - 1], log[|log| - 1];
      var s, k := Run(before, validMinutes), purpose + key;
      assert last in log && forall e :: e in before ==> e in log;
      assert last.at <= EndOf(last) <= now;
      if last.purpose == purpose && last.key == key {
        StepOwn(s, last, validMinutes);
        if last.Register? { StaleMeans(Value(last.code, last.at), validMinutes, now); }
        if last.Register? && Stale(Value(last.code, last.at), validMinutes, last.prunedAt) {
          StaleForever(Value(last.code, last.at), validMinutes, last.prunedAt, now);
        }
      } else {
        if k == last.purpose + last.key { DistinctKeys(purposes, purpose, key, last.purpose, last.key); assert false; }
        EveryAnswer(purposes, before, purpose, key, code, validMinutes, now);
        StepEntry(s, last, validMinutes, k);
        if k in s && last.Register? && Stale(s[k], validMinutes, last.prunedAt) {
          StaleForever(s[k], validMinutes, last.prunedAt, now);
        }
      }
    }
  }

  /** With a validity of zero or less nothing ever verifies, in the store or in the log. */
  lemma {:induction false} NothingVerifies(log: seq<Event>, purpose: string, key: string, code: string, validMinutes: int, now: int)
    requires validMinutes <= 0 && Monotone(log, now)
    ensures AnswersAlike(log, purpose, key, code, validMinutes, now)
  {
    EntriesFromLog(log, validMinutes, now);
    LogNeverVerifies(log, purpose, key, code, validMinutes, now);
  }

  lemma {:induction false} EntriesFromLog(log: seq<Event>, validMinutes: int, now: int)
    requires Monotone(log, now)
    ensures forall k :: k in Run(log, validMinutes) ==> Run(log, validMinutes)[k].time <= now
  {
    if log != [] {
      EntriesFromLog(log[..|log| - 1], validMinutes, now);
      StepOwn(Run(log[..|log| - 1], validMinutes), log[|log| - 1], validMinutes);
      forall k | k in Run(log, validMinutes) && k != log[|log| - 1].purpose + log[|log| - 1].key
        ensures Run(log, validMinutes)[k].time <= now
      {
        StepEntry(Run(log[..|log| - 1], validMinutes), log[|log| - 1], validMinutes, k);
      }
    }
  }

  lemma {:induction false} LogNeverVerifies(log: seq<Event>, purpose: string, key: string, code: string, validMinutes: int, now: int)
    requires validMinutes <= 0 && Monotone(log, now)
    ensures !LogVerifies(log, purpose, key, code, validMinutes, now)
  {
    if log != [] { LogNeverVerifies(log[..|log| - 1], purpose, key, code, validMinutes, now); }
  }

  /** Two purposes one of which extends the other share a key: a code registered for one verifies for the other. */
  lemma PurposesCollide(p: string, q: string, validMinutes: int)
    requires p <= q && p != q && validMinutes >= 1
    ensures var log := [Register(q, "", "c", 0, 0)];
            Monotone(log, 0) && !AnswersAlike(log, p, q[|p|..], "c", validMinutes, 0)
  {
    var log := [Register(q, "", "c", 0, 0)];
    assert log[..0] == [];
    assert p + q[|p|..] == q && q + "" == q;
    assert Run(log, validMinutes) == map[q := Value("c", 0)];
    assert !LogVerifies(log[..0], p, q[|p|..], "c", validMinutes, 0);
  }

  /**
    The store answers as the full log would, in every run with a monotone clock, exactly when no purpose is a prefix
    of another (or the validity lets nothing verify at all).
   */
  lemma StoreAnswersAsLog(purposes: set<string>, validMinutes: int)
    ensures AnswersAsLog(purposes, validMinutes) <==> PrefixFree(purposes) || validMinutes <= 0
  {
    if PrefixFree(purposes) || validMinutes <= 0 {
      forall log: seq<Event>, purpose: string, key: string, code: string, now: int |
        Uses(log, purposes) && purpose in purposes && Monotone(log, now)
        ensures AnswersAlike(log, purpose, key, code, validMinutes, now)
      {
        if validMinutes <= 0 { NothingVerifies(log, purpose, key, code, validMinutes, now); }
        else { EveryAnswer(purposes, log, purpose, key, code, validMinutes, now); }
      }
    } else {
      var p, q :| p in purposes && q in purposes && p <= q && p != q;
      PurposesCollide(p, q, validMinutes);
      assert Uses([Register(q, "", "c", 0, 0)], purposes);
    }
  }

  const EMAIL_VERIFICATION := "v"
  const PASSWORD_RESET := "r"

  /** The two purposes in use never interfere, whatever the validity. */
  lemma EmailAndResetAnswerAsLog(validMinutes: int)
    ensures AnswersAsLog({EMAIL_VERIFICATION, PASSWORD_RESET}, validMinutes)
  {
    assert EMAIL_VERIFICATION[0] != PASSWORD_RESET[0];
    StoreAnswersAsLog({EMAIL_VERIFICATION, PASSWORD_RESET}, validMinutes);
  }
}
