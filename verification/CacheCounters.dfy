/**
  The usage counters of common/disk_cache_config.go under concurrent creates and closes of body storages: every atomic
  addition is a step of its own, and the threads working on different storages interleave in any way.
 */
module CacheCounters {

  /** How far the life of a storage has got; the two clamps are the branches that store 0 after a negative result. */
  datatype Phase = CountUp | BytesUp | Open | CountDown | ClampCount | BytesDown | ClampBytes | Gone

  datatype Storage = Storage(disk: bool, size: nat, phase: Phase)

  datatype State = State(diskFiles: int, diskBytes: int, memBuffers: int, memBytes: int, all: seq<Storage>)

  const START := State(0, 0, 0, 0, [])

  datatype Action =
    | Create(disk: bool, size: nat)   // a thread starts creating a storage
    | Advance(id: nat)                // the thread working on storage id does its next atomic step
    | Close(id: nat)                  // Close is called; only the compare-and-swap from open takes effect

  function Count(s: State, disk: bool): (n: int) {
    if disk then s.diskFiles else s.memBuffers
  }

  function Bytes(s: State, disk: bool): (n: int) {
    if disk then s.diskBytes else s.memBytes
  }

  function SetCount(s: State, disk: bool, n: int): (s': State) {
    if disk then s.(diskFiles := n) else s.(memBuffers := n)
  }

  function SetBytes(s: State, disk: bool, n: int): (s': State) {
    if disk then s.(diskBytes := n) else s.(memBytes := n)
  }

  function To(s: State, id: nat, phase: Phase): (s': State) {
    if id < |s.all| then s.(all := s.all[id := s.all[id].(phase := phase)]) else s
  }

  /** The next atomic step of the thread that creates or closes storage id. */
  function AdvanceStep(s: State, id: nat, x: Storage): (s': State) {
    match x.phase
    case CountUp => To(SetCount(s, x.disk, Count(s, x.disk) + 1), id, BytesUp)
    case BytesUp => To(SetBytes(s, x.disk, Bytes(s, x.disk) + x.size), id, Open)
    case CountDown =>
      var n := Count(s, x.disk) - 1;
      To(SetCount(s, x.disk, n), id, if x.disk && n < 0 then ClampCount else BytesDown)
    case ClampCount => To(SetCount(s, x.disk, 0), id, BytesDown)
    case BytesDown =>
      var n := Bytes(s, x.disk) - x.size;
      To(SetBytes(s, x.disk, n), id, if x.disk && n < 0 then ClampBytes else Gone)
    case ClampBytes => To(SetBytes(s, x.disk, 0), id, Gone)
    case Open => s
    case Gone => s
  }

  function Step(s: State, a: Action): (s': State) {
    match a
    case Create(disk, size) => s.(all := s.all + [Storage(disk, size, CountUp)])
    case Advance(id) => if id < |s.all| then AdvanceStep(s, id, s.all[id]) else s
    case Close(id) => if id < |s.all| && s.all[id].phase == Open then To(s, id, CountDown) else s
  }

  function Run(actions: seq<Action>): (s: State) {
    if actions == [] then START else Step(Run(actions[..|actions| - 1]), actions[|actions| - 1])
  }

  /** What a storage has added to the counter of its kind and not yet taken back. */
  function Counted(x: Storage, disk: bool): (n: nat) {
    if x.disk == disk && (x.phase == BytesUp || x.phase == Open || x.phase == CountDown) then 1 else 0
  }

  function Held(x: Storage, disk: bool): (n: nat) {
    if x.disk == disk && (x.phase == Open || x.phase == CountDown || x.phase == ClampCount || x.phase == BytesDown)
    then x.size else 0
  }

  function Sum(all: seq<Storage>, w: Storage -> nat): (n: nat) {
    if all == [] then 0 else Sum(all[..|all| - 1], w) + w(all[|all| - 1])
  }

  lemma {:induction false} SumReplace(all: seq<Storage>, id: nat, x: Storage, w: Storage -> nat)
    requires id < |all|
    ensures Sum(all[id := x], w) == Sum(all, w) - w(all[id]) + w(x)
    ensures w(all[id]) <= Sum(all, w)
  {
    var last := |all| - 1;
    if id == last {
      assert all[id := x][..last] == all[..last];
    } else {
      assert all[id := x][..last] == all[..last][id := x];
      SumReplace(all[..last], id, x, w);
    }
  }

  lemma SumAppend(all: seq<Storage>, x: Storage, w: Storage -> nat)
    ensures Sum(all + [x], w) == Sum(all, w) + w(x)
  {
    assert (all + [x])[..|all|] == all;
  }

  function CountedOf(disk: bool): (w: Storage -> nat) {
    (x: Storage) => Counted(x, disk)
  }

  function HeldOf(disk: bool): (w: Storage -> nat) {
    (x: Storage) => Held(x, disk)
  }

  /** Both counters of a kind are exactly what the storages of that kind have added and not taken back. */
  ghost predicate Exact(s: State, disk: bool) {
    Count(s, disk) == Sum(s.all, CountedOf(disk)) && Bytes(s, disk) == Sum(s.all, HeldOf(disk))
  }

  predicate NoClamp(s: State) {
    forall x :: x in s.all ==> x.phase != ClampCount && x.phase != ClampBytes
  }

  ghost predicate Inv(s: State) {
    Exact(s, true) && Exact(s, false) && NoClamp(s)
  }

  lemma ReplaceAll(s: State, id: nat, phase: Phase, disk: bool)
    requires id < |s.all|
    ensures var x := s.all[id].(phase := phase);
            var all := s.all[id := x];
            && Sum(all, CountedOf(disk)) == Sum(s.all, CountedOf(disk)) - Counted(s.all[id], disk) + Counted(x, disk)
            && Sum(all, HeldOf(disk)) == Sum(s.all, HeldOf(disk)) - Held(s.all[id], disk) + Held(x, disk)
            && Counted(s.all[id], disk) <= Sum(s.all, CountedOf(disk)) && Held(s.all[id], disk) <= Sum(s.all, HeldOf(disk))
  {
    SumReplace(s.all, id, s.all[id].(phase := phase), CountedOf(disk));
    SumReplace(s.all, id, s.all[id].(phase := phase), HeldOf(disk));
  }

  /** Storage x moves to a phase while the counters of its kind become n and b. */
  function Moved(s: State, id: nat, x: Storage, n: int, b: int, phase: Phase): (s': State) {
    To(SetBytes(SetCount(s, x.disk, n), x.disk, b), id, phase)
  }

  /** Moving a storage is exact when its counters change by what it adds and takes back. */
  lemma MovedExact(s: State, id: nat, n: int, b: int, phase: Phase, disk: bool)
    requires Exact(s, disk) && id < |s.all|
    requires var x := s.all[id];
             && n == Count(s, x.disk) - Counted(x, x.disk) + Counted(x.(phase := phase), x.disk)
             && b == Bytes(s, x.disk) - Held(x, x.disk) + Held(x.(phase := phase), x.disk)
    ensures Exact(Moved(s, id, s.all[id], n, b, phase), disk)
  {
    ReplaceAll(s, id, phase, disk);
    var s' := Moved(s, id, s.all[id], n, b, phase);
    assert s'.all == s.all[id := s.all[id].(phase := phase)];
  }

  /** The phase and the counters an atomic step leaves, when nothing is clamped. */
  function NextPhase(x: Storage): (p: Phase) {
    match x.phase
    case CountUp => BytesUp
    case BytesUp => Open
    case CountDown => BytesDown
    case BytesDown => Gone
    case _ => x.phase
  }

  lemma AdvanceIsMove(s: State, id: nat)
    requires id < |s.all| && Exact(s, s.all[id].disk)
    requires s.all[id].phase != ClampCount && s.all[id].phase != ClampBytes
    ensures var x := s.all[id];
            var y := x.(phase := NextPhase(x));
            AdvanceStep(s, id, x) == Moved(s, id, x, Count(s, x.disk) - Counted(x, x.disk) + Counted(y, x.disk),
                                           Bytes(s, x.disk) - Held(x, x.disk) + Held(y, x.disk), NextPhase(x))
  {
    var x := s.all[id];
    ReplaceAll(s, id, NextPhase(x), x.disk);
    assert s.all[id := x] == s.all;
  }

  lemma AdvanceKeepsExact(s: State, id: nat, disk: bool)
    requires Inv(s) && id < |s.all|
    ensures Exact(AdvanceStep(s, id, s.all[id]), disk)
  {
    var x := s.all[id];
    var y := x.(phase := NextPhase(x));
    assert x in s.all;
    AdvanceIsMove(s, id);
    MovedExact(s, id, Count(s, x.disk) - Counted(x, x.disk) + Counted(y, x.disk),
               Bytes(s, x.disk) - Held(x, x.disk) + Held(y, x.disk), NextPhase(x), disk);
  }

  lemma AdvanceNoClamp(s: State, id: nat)
    requires Inv(s) && id < |s.all|
    ensures NoClamp(AdvanceStep(s, id, s.all[id]))
  {
    var x := s.all[id];
    assert x in s.all;
    AdvanceIsMove(s, id);
    MovedNoClamp(s.all, id, x.(phase := NextPhase(x)));
  }

  lemma MovedNoClamp(all: seq<Storage>, id: nat, y: Storage)
    requires id < |all| && y.phase != ClampCount && y.phase != ClampBytes
    requires forall x :: x in all ==> x.phase != ClampCount && x.phase != ClampBytes
    ensures forall x :: x in all[id := y] ==> x.phase != ClampCount && x.phase != ClampBytes
  {
    forall x | x in all[id := y] ensures x.phase != ClampCount && x.phase != ClampBytes {
      var k :| 0 <= k < |all| && all[id := y][k] == x;
      assert all[k] in all;
    }
  }

  lemma CreateKeepsInv(s: State, disk: bool, size: nat)
    requires Inv(s)
    ensures Inv(Step(s, Create(disk, size)))
  {
    CreateKeepsExact(s, Storage(disk, size, CountUp), true);
    CreateKeepsExact(s, Storage(disk, size, CountUp), false);
    assert forall x :: x in s.all + [Storage(disk, size, CountUp)] ==> x in s.all || x.phase == CountUp;
  }

  /** A storage that has not counted itself yet leaves the sums as they are. */
  lemma CreateKeepsExact(s: State, x: Storage, disk: bool)
    requires Exact(s, disk) && x.phase == CountUp
    ensures Exact(s.(all := s.all + [x]), disk)
  {
    AddsNothing(s.all, s.all + [x], x, CountedOf(disk));
    AddsNothing(s.all, s.all + [x], x, HeldOf(disk));
  }

  lemma AddsNothing(all: seq<Storage>, all': seq<Storage>, x: Storage, w: Storage -> nat)
    requires all' == all + [x] && w(x) == 0
    ensures Sum(all', w) == Sum(all, w)
  {
    SumAppend(all, x, w);
  }

  lemma CloseKeepsInv(s: State, id: nat)
    requires Inv(s) && id < |s.all| && s.all[id].phase == Open
    ensures Inv(To(s, id, CountDown))
  {
    ReplaceAll(s, id, CountDown, true);
    ReplaceAll(s, id, CountDown, false);
    MovedNoClamp(s.all, id, s.all[id].(phase := CountDown));
  }

  lemma StepKeepsInv(s: State, a: Action)
    requires Inv(s)
    ensures Inv(Step(s, a))
  {
    match a
    case Create(disk, size) => CreateKeepsInv(s, disk, size);
    case Advance(id) =>
      if id < |s.all| {
        AdvanceKeepsExact(s, id, true);
        AdvanceKeepsExact(s, id, false);
        AdvanceNoClamp(s, id);
      }
    case Close(id) => if id < |s.all| && s.all[id].phase == Open { CloseKeepsInv(s, id); }
  }

  lemma {:induction false} RunHasInv(actions: seq<Action>)
    ensures Inv(Run(actions))
  {
    if actions != [] {
      RunHasInv(actions[..|actions| - 1]);
      StepKeepsInv(Run(actions[..|actions| - 1]), actions[|actions| - 1]);
    }
  }

  /** In every interleaving of creates and repeated closes no counter goes below zero and neither clamp is reached. */
  lemma CountersNeverNegative(actions: seq<Action>)
    ensures var s := Run(actions);
            s.diskFiles >= 0 && s.diskBytes >= 0 && s.memBuffers >= 0 && s.memBytes >= 0 && NoClamp(s)
  {
    RunHasInv(actions);
  }

  /** No create or close is under way. */
  predicate Quiescent(s: State) {
    forall x :: x in s.all ==> x.phase == Open || x.phase == Gone
  }

  function OpenCount(all: seq<Storage>, disk: bool): (n: nat) {
    if all == [] then 0
    else
      var last := all[|all| - 1];
      OpenCount(all[..|all| - 1], disk) + (if last.disk == disk && last.phase == Open then 1 else 0)
  }

  function OpenBytes(all: seq<Storage>, disk: bool): (n: nat) {
    if all == [] then 0
    else
      var last := all[|all| - 1];
      OpenBytes(all[..|all| - 1], disk) + (if last.disk == disk && last.phase == Open then last.size else 0)
  }

  lemma {:induction false} QuiescentSums(all: seq<Storage>, disk: bool)
    requires forall x :: x in all ==> x.phase == Open || x.phase == Gone
    ensures Sum(all, CountedOf(disk)) == OpenCount(all, disk) && Sum(all, HeldOf(disk)) == OpenBytes(all, disk)
  {
    if all != [] {
      assert all[|all| - 1] in all;
      QuiescentSums(all[..|all| - 1], disk);
    }
  }

  /** Whenever no create or close is under way, the counters are the number and the bytes of the open storages. */
  lemma CountersAreExact(actions: seq<Action>, disk: bool)
    requires Quiescent(Run(actions))
    ensures var s := Run(actions);
            Count(s, disk) == OpenCount(s.all, disk) && Bytes(s, disk) == OpenBytes(s.all, disk)
  {
    RunHasInv(actions);
    QuiescentSums(Run(actions).all, disk);
  }

  // ---------------------------------------------------------------- which storages there are

  /** The storages the run created, in order. */
  function Created(actions: seq<Action>): (r: seq<(bool, nat)>) {
    if actions == [] then []
    else
      var last := actions[|actions| - 1];
      Created(actions[..|actions| - 1]) + if last.Create? then [(last.disk, last.size)] else []
  }

  ghost predicate SameStorages(all: seq<Storage>, created: seq<(bool, nat)>) {
    |all| == |created| && forall i :: 0 <= i < |all| ==> (all[i].disk, all[i].size) == created[i]
  }

  lemma StepSame(s: State, a: Action, created: seq<(bool, nat)>)
    requires SameStorages(s.all, created)
    ensures SameStorages(Step(s, a).all, created + if a.Create? then [(a.disk, a.size)] else [])
  {
  }

  /** Every storage that was created is accounted for with its kind and size, and no other. */
  lemma {:induction false} EveryStorageIsThere(actions: seq<Action>)
    ensures SameStorages(Run(actions).all, Created(actions))
  {
    if actions != [] {
      EveryStorageIsThere(actions[..|actions| - 1]);
      StepSame(Run(actions[..|actions| - 1]), actions[|actions| - 1], Created(actions[..|actions| - 1]));
    }
  }

  lemma AdvancedAll(s: State, id: nat)
    requires Inv(s) && id < |s.all|
    ensures Step(s, Advance(id)).all == s.all[id := s.all[id].(phase := NextPhase(s.all[id]))]
  {
    assert s.all[id] in s.all;
    AdvanceIsMove(s, id);
  }

  lemma ClosedAll(s: State, id: nat)
    requires id < |s.all|
    ensures Step(s, Close(id)).all ==
            if s.all[id].phase == Open then s.all[id := s.all[id].(phase := CountDown)] else s.all
  {
  }

  /** In every reachable state a create ends open after two steps, a close gone after two, and nothing else moves. */
  lemma StoragesMoveOn(actions: seq<Action>, id: nat)
    requires id < |Run(actions).all|
    ensures var s := Run(actions);
            var x, moved, closed := s.all[id], Step(s, Advance(id)), Step(s, Close(id));
            && |moved.all| == |closed.all| == |s.all|
            && moved.all[id] == x.(phase := match x.phase
                                            case CountUp => BytesUp
                                            case BytesUp => Open
                                            case CountDown => BytesDown
                                            case BytesDown => Gone
                                            case other => other)
            && closed.all[id] == x.(phase := if x.phase == Open then CountDown else x.phase)
            && forall i :: 0 <= i < |s.all| && i != id ==> moved.all[i] == closed.all[i] == s.all[i]
  {
    RunHasInv(actions);
    AdvancedAll(Run(actions), id);
    ClosedAll(Run(actions), id);
  }
}
