/** The sliding-window limiter of common/rate-limit.go against the full log of accepted requests. */
module RateLimit {

  /** Per key the accepted times still remembered, oldest first. */
  type Store = map<string, seq<int>>

  function Times(store: Store, key: string): (q: seq<int>) {
    if key in store then store[key] else []
  }

  predicate Accepts(store: Store, key: string, max: int, duration: int, now: int) {
    key !in store || |store[key]| < max || store[key] == [] || now - store[key][0] >= duration
  }

  /** The store after a request. */
  function Requested(store: Store, key: string, max: int, duration: int, now: int): (s: Store) {
    if !Accepts(store, key, max, duration, now) then store
    else
      var q := Times(store, key);
      store[key := (if key in store && |q| >= max && q != [] then q[1..] else q) + [now]]
  }

  predicate Expired(q: seq<int>, expiration: int, now: int) {
    q == [] || now - q[|q| - 1] > expiration
  }

  /** The store after one pass of the background cleanup. */
  function Cleaned(store: Store, expiration: int, now: int): (s: Store) {
    map key | key in store && !Expired(store[key], expiration, now) :: store[key]
  }

  class InMemoryRateLimiter {
    var store: Store
    const expiration: int   // whole seconds

    /** No queue is ever empty, so reading its oldest time is safe. */
    ghost predicate Valid()
      reads this
    {
      forall key :: key in store ==> store[key] != []
    }

    constructor (expiration: int)
      ensures Valid() && store == map[] && this.expiration == expiration
    {
      store := map[];
      this.expiration := expiration;
    }

    /** A negative maximum is not a request: making the first queue would panic. */
    method Request(key: string, max: nat, duration: int, now: int) returns (ok: bool)
      requires Valid()
      modifies this
      ensures Valid()
      ensures ok == Accepts(old(store), key, max, duration, now)
      ensures store == Requested(old(store), key, max, duration, now)
    {
      if key in store {
        var queue := store[key];
        if |queue| < max {
          store := store[key := queue + [now]];
          return true;
        } else if now - queue[0] >= duration {
          queue := queue[1..];
          store := store[key := queue + [now]];
          return true;
        } else {
          return false;
        }
      } else {
        store := store[key := []];
        store := store[key := store[key] + [now]];
      }
      return true;
    }

    method ClearExpiredItems(now: int)
      requires Valid()
      modifies this
      ensures Valid()
      ensures store == Cleaned(old(store), expiration, now)
    {
      var todo := store.Keys;
      ghost var before := store;
      while todo != {}
        invariant store.Keys <= before.Keys && todo <= store.Keys
        invariant forall k :: k in store ==> store[k] == before[k]
        invariant forall k :: k in before && k !in todo ==> (k in store <==> !Expired(before[k], expiration, now))
        decreases |todo|
      {
        var key :| key in todo;
        todo := todo - {key};
        var queue := store[key];
        var size := |queue|;
        if size == 0 || now - queue[size - 1] > expiration {
          store := store - {key};
        }
      }
    }
  }

  // ---------------------------------------------------------------- runs

  /** What happens to a limiter: requests and cleanups, each at the time the clock shows. */
  datatype Event = Request(key: string, now: int) | Cleanup(now: int)

  /**
    Limits are fixed per key. The cleanup runs only for a positive expiration, and counts it in whole seconds, so that an
    expiration below one second cleans with 0.
   */
  datatype Config = Config(cleans: bool, seconds: nat, max: string -> nat, duration: string -> int)

  /** The limiter's memory, and for comparison every accepted request ever. */
  datatype State = State(store: Store, log: Store)

  function Step(cfg: Config, s: State, e: Event): (s': State) {
    match e
    case Request(key, now) =>
      if Accepts(s.store, key, cfg.max(key), cfg.duration(key), now)
      then State(Requested(s.store, key, cfg.max(key), cfg.duration(key), now), s.log[key := Times(s.log, key) + [now]])
      else s
    case Cleanup(now) => if cfg.cleans then s.(store := Cleaned(s.store, cfg.seconds, now)) else s
  }

  function Run(cfg: Config, events: seq<Event>): (s: State) {
    if events == [] then State(map[], map[])
    else Step(cfg, Run(cfg, events[..|events| - 1]), events[|events| - 1])
  }

  ghost predicate Monotone(events: seq<Event>) {
    forall i, j :: 0 <= i <= j < |events| ==> events[i].now <= events[j].now
  }

  /** How many of the times lie in the last `duration` seconds. */
  function CountRecent(times: seq<int>, duration: int, now: int): (n: nat) {
    if times == [] then 0
    else CountRecent(times[..|times| - 1], duration, now) + (if now - times[|times| - 1] < duration then 1 else 0)
  }

  /** The rule the limiter stands for: fewer than max requests of this key were accepted in the window. */
  predicate LogRule(log: Store, key: string, max: int, duration: int, now: int) {
    CountRecent(Times(log, key), duration, now) < max
  }

  /** In every run every request is decided as the full log would decide it. */
  ghost predicate FollowsLog(cfg: Config) {
    forall events: seq<Event>, key: string, now: int :: Monotone(events + [Request(key, now)]) ==> DecidesAlike(cfg, events, key, now)
  }

  ghost predicate DecidesAlike(cfg: Config, events: seq<Event>, key: string, now: int) {
    var s := Run(cfg, events);
    Accepts(s.store, key, cfg.max(key), cfg.duration(key), now) <==>
    LogRule(s.log, key, cfg.max(key), cfg.duration(key), now)
  }

  // ---------------------------------------------------------------- counting

  lemma {:induction false} CountOld(times: seq<int>, duration: int, now: int)
    requires forall k :: 0 <= k < |times| ==> now - times[k] >= duration
    ensures CountRecent(times, duration, now) == 0
  {
    if times != [] { CountOld(times[..|times| - 1], duration, now); }
  }

  lemma {:induction false} CountAll(times: seq<int>, duration: int, now: int)
    requires forall k :: 0 <= k < |times| ==> now - times[k] < duration
    ensures CountRecent(times, duration, now) == |times|
  {
    if times != [] { CountAll(times[..|times| - 1], duration, now); }
  }

  lemma {:induction false} CountAtMost(times: seq<int>, duration: int, now: int)
    ensures CountRecent(times, duration, now) <= |times|
  {
    if times != [] { CountAtMost(times[..|times| - 1], duration, now); }
  }

  lemma {:induction false} CountConcat(a: seq<int>, b: seq<int>, duration: int, now: int)
    ensures CountRecent(a + b, duration, now) == CountRecent(a, duration, now) + CountRecent(b, duration, now)
  {
    if b == [] {
      assert a + b == a;
    } else {
      assert (a + b)[..|a + b| - 1] == a + b[..|b| - 1];
      CountConcat(a, b[..|b| - 1], duration, now);
    }
  }

  // ---------------------------------------------------------------- the invariant

  /** One key at time `now`: the queue is the tail of the log, and whatever was forgotten cannot count any more. */
  ghost predicate KeyOk(q: seq<int>, times: seq<int>, max: int, duration: int, now: int) {
    && |q| <= |times| && q == times[|times| - |q|..]
    && (forall i, j :: 0 <= i <= j < |times| ==> times[i] <= times[j])
    && (forall i :: 0 <= i < |times| ==> times[i] <= now)
    && |q| <= max
    && (|q| < max ==> forall i :: 0 <= i < |times| - |q| ==> now - times[i] >= duration)
  }

  ghost predicate Inv(cfg: Config, s: State, now: int) {
    && (forall key :: key in s.store ==> s.store[key] != [])
    && (forall key :: KeyInv(cfg, s, key, now))
  }

  ghost predicate Sound(cfg: Config) {
    forall key :: cfg.max(key) >= 1 && (cfg.cleans ==> cfg.duration(key) <= cfg.seconds + 1)
  }

  /** The decision for one key, from the invariant alone. */
  lemma KeyDecision(q: seq<int>, times: seq<int>, max: int, duration: int, now: int)
    requires KeyOk(q, times, max, duration, now) && max >= 1
    ensures (|q| < max || now - q[0] >= duration) <==> CountRecent(times, duration, now) < max
  {
    var gone := times[..|times| - |q|];
    assert times == gone + q;
    CountConcat(gone, q, duration, now);
    CountAtMost(q, duration, now);
    if |q| < max || now - q[0] >= duration {
      forall k | 0 <= k < |gone| ensures now - gone[k] >= duration {
        if |q| >= max { assert times[k] <= times[|gone|]; }
      }
      CountOld(gone, duration, now);
      if |q| >= max { OldestDropsOut(q, duration, now); }
    } else {
      forall k | 0 <= k < |q| ensures now - q[k] < duration { assert times[|gone|] <= times[|gone| + k]; }
      CountAll(q, duration, now);
    }
  }

  lemma OldestDropsOut(q: seq<int>, duration: int, now: int)
    requires q != [] && now - q[0] >= duration
    ensures CountRecent(q, duration, now) < |q|
  {
    assert q == [q[0]] + q[1..];
    CountConcat([q[0]], q[1..], duration, now);
    CountOld([q[0]], duration, now);
    CountAtMost(q[1..], duration, now);
  }

  lemma KeyLater(q: seq<int>, times: seq<int>, max: int, duration: int, now: int, later: int)
    requires KeyOk(q, times, max, duration, now) && now <= later
    ensures KeyOk(q, times, max, duration, later)
  {
  }

  lemma KeyAccept(q: seq<int>, times: seq<int>, max: int, duration: int, now: int)
    requires KeyOk(q, times, max, duration, now) && max >= 1
    requires |q| < max || now - q[0] >= duration
    ensures KeyOk((if |q| >= max then q[1..] else q) + [now], times + [now], max, duration, now)
  {
    var q' := (if |q| >= max then q[1..] else q) + [now];
    assert q' == (times + [now])[|times| + 1 - |q'|..];
  }

  lemma KeyForget(q: seq<int>, times: seq<int>, max: int, duration: int, now: int, expiration: int)
    requires KeyOk(q, times, max, duration, now) && max >= 1 && duration <= expiration + 1
    requires q != [] && Expired(q, expiration, now)
    ensures KeyOk([], times, max, duration, now)
  {
    assert times[|times| - 1] == q[|q| - 1];
    assert [] == times[|times|..];
  }

  ghost predicate KeyInv(cfg: Config, s: State, key: string, now: int) {
    KeyOk(Times(s.store, key), Times(s.log, key), cfg.max(key), cfg.duration(key), now)
  }

  /** An accepted request of this key. */
  predicate AcceptedHere(cfg: Config, s: State, e: Event, key: string) {
    e.Request? && e.key == key && Accepts(s.store, key, cfg.max(key), cfg.duration(key), e.now)
  }

  /** A cleanup that drops this key. */
  predicate DroppedHere(cfg: Config, s: State, e: Event, key: string) {
    e.Cleanup? && cfg.cleans && key in s.store && Expired(s.store[key], cfg.seconds, e.now)
  }

  lemma StepAccept(cfg: Config, s: State, e: Event, key: string)
    requires AcceptedHere(cfg, s, e, key) && cfg.max(key) >= 1
    ensures var q, s' := Times(s.store, key), Step(cfg, s, e);
            && Times(s'.store, key) == (if |q| >= cfg.max(key) then q[1..] else q) + [e.now]
            && Times(s'.log, key) == Times(s.log, key) + [e.now]
  {
  }

  lemma StepDrop(cfg: Config, s: State, e: Event, key: string)
    requires DroppedHere(cfg, s, e, key)
    ensures var s' := Step(cfg, s, e); Times(s'.store, key) == [] && s'.log == s.log
  {
  }

  lemma StepElse(cfg: Config, s: State, e: Event, key: string)
    requires !AcceptedHere(cfg, s, e, key) && !DroppedHere(cfg, s, e, key)
    ensures var s' := Step(cfg, s, e);
            Times(s'.store, key) == Times(s.store, key) && Times(s'.log, key) == Times(s.log, key)
  {
  }

  lemma KeyStep(cfg: Config, s: State, e: Event, now: int, key: string)
    requires cfg.max(key) >= 1 && (cfg.cleans ==> cfg.duration(key) <= cfg.seconds + 1)
    requires key in s.store ==> s.store[key] != []
    requires KeyInv(cfg, s, key, now) && now <= e.now
    ensures KeyInv(cfg, Step(cfg, s, e), key, e.now)
  {
    var q, times, max, duration := Times(s.store, key), Times(s.log, key), cfg.max(key), cfg.duration(key);
    KeyLater(q, times, max, duration, now, e.now);
    if AcceptedHere(cfg, s, e, key) {
      StepAccept(cfg, s, e, key);
      KeyAccept(q, times, max, duration, e.now);
    } else if DroppedHere(cfg, s, e, key) {
      StepDrop(cfg, s, e, key);
      KeyForget(q, times, max, duration, e.now, cfg.seconds);
    } else {
      StepElse(cfg, s, e, key);
    }
  }

  lemma StepKeepsInv(cfg: Config, s: State, e: Event, now: int)
    requires Sound(cfg) && Inv(cfg, s, now) && now <= e.now
    ensures Inv(cfg, Step(cfg, s, e), e.now)
  {
    forall key ensures KeyInv(cfg, Step(cfg, s, e), key, e.now) {
      assert KeyInv(cfg, s, key, now);
      KeyStep(cfg, s, e, now, key);
    }
  }

  lemma {:induction false} RunHasInv(cfg: Config, events: seq<Event>, now: int)
    requires Sound(cfg) && Monotone(events) && forall e :: e in events ==> e.now <= now
    ensures Inv(cfg, Run(cfg, events), now)
  {
    if events != [] {
      var last := events[|events| - 1];
      forall e | e in events[..|events| - 1] ensures e.now <= last.now {}
      assert last in events;
      RunHasInv(cfg, events[..|events| - 1], last.now);
      StepKeepsInv(cfg, Run(cfg, events[..|events| - 1]), last, last.now);
      var s := Run(cfg, events);
      forall key ensures KeyInv(cfg, s, key, now) {
        assert KeyInv(cfg, s, key, last.now);
        KeyLater(Times(s.store, key), Times(s.log, key), cfg.max(key), cfg.duration(key), last.now, now);
      }
    }
  }

  lemma SoundDecides(cfg: Config, events: seq<Event>, key: string, now: int)
    requires Sound(cfg) && Monotone(events + [Request(key, now)])
    ensures DecidesAlike(cfg, events, key, now)
  {
    var all := events + [Request(key, now)];
    forall e | e in events ensures e.now <= now {
      var i :| 0 <= i < |events| && events[i] == e;
      assert all[i].now <= all[|events|].now;
    }
    assert forall i :: 0 <= i < |events| ==> events[i] == all[i];
    RunHasInv(cfg, events, now);
    var s := Run(cfg, events);
    assert KeyInv(cfg, s, key, now);
    KeyDecision(Times(s.store, key), Times(s.log, key), cfg.max(key), cfg.duration(key), now);
  }

  // ---------------------------------------------------------------- why the conditions are needed

  function Repeat(e: Event, n: nat): (r: seq<Event>) {
    if n == 0 then [] else Repeat(e, n - 1) + [e]
  }

  function Zeros(n: nat): (r: seq<int>) {
    seq(n, _ => 0)
  }

  lemma {:induction false} RepeatIs(e: Event, n: nat)
    ensures |Repeat(e, n)| == n && forall x :: x in Repeat(e, n) ==> x == e
  {
    if n > 0 { RepeatIs(e, n - 1); }
  }

  ghost function AfterFirst(key: string, n: nat): (s: State) {
    if n == 0 then State(map[], map[]) else State(map[key := Zeros(n)], map[key := Zeros(n)])
  }

  lemma OneMoreFirst(cfg: Config, key: string, n: nat)
    requires n < cfg.max(key)
    ensures Step(cfg, AfterFirst(key, n), Request(key, 0)) == AfterFirst(key, n + 1)
  {
    assert Zeros(n) + [0] == Zeros(n + 1);
  }

  /** n requests of one key at time 0, no more than its maximum, are all accepted. */
  lemma {:induction false} FirstRequests(cfg: Config, key: string, n: nat)
    requires n <= cfg.max(key)
    ensures Run(cfg, Repeat(Request(key, 0), n)) == AfterFirst(key, n)
  {
    if n > 0 {
      var before, all := Repeat(Request(key, 0), n - 1), Repeat(Request(key, 0), n);
      FirstRequests(cfg, key, n - 1);
      RepeatIs(Request(key, 0), n - 1);
      assert all[..|all| - 1] == before && all[|all| - 1] == Request(key, 0);
      OneMoreFirst(cfg, key, n - 1);
    }
  }

  /** A window longer than the expiration: the cleanup forgets requests that still count. */
  lemma ForgottenTooEarly(cfg: Config, key: string)
    requires cfg.max(key) >= 1 && cfg.cleans && cfg.duration(key) > cfg.seconds + 1
    ensures var now := cfg.seconds + 1;
            var events := Repeat(Request(key, 0), cfg.max(key)) + [Cleanup(now)];
            Monotone(events + [Request(key, now)]) && !DecidesAlike(cfg, events, key, now)
  {
    var max, now := cfg.max(key), cfg.seconds + 1;
    var first := Repeat(Request(key, 0), max);
    FirstThenLater(Request(key, 0), max, [Cleanup(now), Request(key, now)]);
    assert first + [Cleanup(now)] + [Request(key, now)] == first + [Cleanup(now), Request(key, now)];
    Forgotten(cfg, key);
    CountAll(Zeros(max), cfg.duration(key), now);
  }

  /** Repeating an event at time 0 and then going on at later times is monotone. */
  lemma FirstThenLater(e: Event, n: nat, later: seq<Event>)
    requires e.now == 0 && Monotone(later) && forall x :: x in later ==> x.now >= 0
    ensures Monotone(Repeat(e, n) + later)
  {
    var first := Repeat(e, n);
    RepeatIs(e, n);
    var all := first + later;
    forall i, j | 0 <= i <= j < |all| ensures all[i].now <= all[j].now {
      if i < n { assert all[i] == first[i] && first[i] in first; } else { assert all[i] == later[i - n] && later[i - n] in later; }
      if j < n { assert all[j] == first[j] && first[j] in first; } else { assert all[j] == later[j - n] && later[j - n] in later; }
    }
  }

  /** After the cleanup the limiter knows nothing, while the log knows every request. */
  lemma Forgotten(cfg: Config, key: string)
    requires cfg.max(key) >= 1 && cfg.cleans
    ensures var now := cfg.seconds + 1;
            var s := Run(cfg, Repeat(Request(key, 0), cfg.max(key)) + [Cleanup(now)]);
            s.store == map[] && s.log == map[key := Zeros(cfg.max(key))]
  {
    var max, now := cfg.max(key), cfg.seconds + 1;
    var first := Repeat(Request(key, 0), max);
    FirstRequests(cfg, key, max);
    assert (first + [Cleanup(now)])[..|first|] == first;
    CleanedAway(key, max, cfg.seconds);
  }

  lemma CleanedAway(key: string, n: nat, expiration: int)
    requires n >= 1
    ensures Cleaned(map[key := Zeros(n)], expiration, expiration + 1) == map[]
  {
    assert Zeros(n)[n - 1] == 0;
  }

  /** A maximum of zero still accepts the first request of a key. */
  lemma ZeroMaximumAccepts(cfg: Config, key: string)
    requires cfg.max(key) == 0
    ensures Monotone([] + [Request(key, 0)]) && !DecidesAlike(cfg, [], key, 0)
  {
  }

  /**
    The limiter decides every request of every run, with cleanups anywhere, as the full log would, exactly when every
    maximum is at least 1 and, if the cleanup runs, no window is longer than the expiration plus one second.
   */
  lemma LimiterFollowsLog(cfg: Config)
    ensures FollowsLog(cfg) <==> Sound(cfg)
  {
    if Sound(cfg) {
      forall events: seq<Event>, key: string, now: int | Monotone(events + [Request(key, now)])
        ensures DecidesAlike(cfg, events, key, now)
      {
        SoundDecides(cfg, events, key, now);
      }
    } else {
      var key :| !(cfg.max(key) >= 1 && (cfg.cleans ==> cfg.duration(key) <= cfg.seconds + 1));
      if cfg.max(key) < 1 {
        ZeroMaximumAccepts(cfg, key);
      } else {
        ForgottenTooEarly(cfg, key);
      }
    }
  }
}
