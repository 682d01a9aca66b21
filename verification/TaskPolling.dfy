/**
  The polling loop that runs (service/task_polling.go): any number of pollers and sweeps read unfinished tasks, work on
  their copies, write them back with a compare-and-set on the status, and bill the task only if they won.
 */
module TaskPolling {
  import opened VideoBilling

  /**
    What a poll meets: a parsed result (an empty status already read as a failure), a request to wait, a timeout found
    by the sweep, or a channel that is gone.
   */
  datatype Action =
    | Report(status: string, progress: string, changed: bool, actual: int)  // actual: the quota to settle, if positive
    | TooManyRequests
    | TimedOut(legacy: bool)
    | BulkFail

  /** What happens at one turn: whether the query returns the task, what the poll meets, which writes succeed. */
  datatype Event = Event(seen: bool, action: Action, saved: bool, paid: bool)

  datatype Bill = Refund(quota: int) | Settle(before: int, after: int)

  /** The stored task, what the user has been charged for it in all, and the bills at its end. */
  datatype Store = Store(task: Task, charged: int, bills: seq<Bill>)

  predicate Done(status: string) {
    status == SUCCESS || status == FAILURE
  }

  /** What the queries for unfinished tasks return. */
  predicate Unfinished(task: Task) {
    task.progress != COMPLETE && !Done(task.status)
  }

  function DefaultProgress(status: string): (progress: string) {
    if status == SUBMITTED then "10%" else if status == QUEUED then "20%"
    else if status == IN_PROGRESS then "30%" else COMPLETE
  }

  function Merged(copy: Task, status: string, progress: string): (t: Task) {
    Task(status, if status != FAILURE && progress != "" then progress else DefaultProgress(status), copy.quota)
  }

  /** UpdateWithStatus: written exactly when the database works and the stored status is the one that was read. */
  predicate Wins(s: Store, from: string, saved: bool) {
    saved && s.task.status == from
  }

  /** Refund a failed task, or settle a successful one; settling changes the quota of the copy only. */
  function Billed(s: Store, t: Task, actual: int, paid: bool): (r: (Store, Task)) {
    if t.status == FAILURE && t.quota != 0 && paid then
      (s.(charged := s.charged - t.quota, bills := s.bills + [Refund(t.quota)]), t)
    else if t.status == SUCCESS && actual > 0 && actual != t.quota && paid then
      (s.(charged := s.charged + (actual - t.quota), bills := s.bills + [Settle(t.quota, actual)]),
       t.(quota := actual))
    else (s, t)
  }

  /** updateVideoSingleTask on a copy: the store and the copy afterwards. */
  function Polled(s: Store, copy: Task, status: string, progress: string, changed: bool, actual: int,
                  saved: bool, paid: bool): (r: (Store, Task))
  {
    if !Known(status) then (s, copy.(status := status))
    else
      var t := Merged(copy, status, progress);
      var won := Wins(s, copy.status, saved);
      if Done(status) && copy.status != status then
        if won then Billed(s.(task := t), t, actual, paid) else (s, t)
      else Billed(if won && (t != copy || changed) then s.(task := t) else s, t, actual, paid)
  }

  /** sweepTimedOutTasks on one copy. */
  function Swept(s: Store, copy: Task, legacy: bool, saved: bool, paid: bool): (r: (Store, Task)) {
    var t := copy.(status := FAILURE, progress := COMPLETE);
    if !Wins(s, copy.status, saved) then (s, t)
    else if legacy then (s.(task := t), t)
    else Billed(s.(task := t), t, 0, paid)
  }

  function Handled(s: Store, copy: Task, e: Event): (r: (Store, Task)) {
    match e.action
    case Report(status, progress, changed, actual) =>
      Polled(s, copy, status, progress, changed, actual, e.saved, e.paid)
    case TooManyRequests => (s, copy)
    case TimedOut(legacy) => Swept(s, copy, legacy, e.saved, e.paid)
    case BulkFail =>
      (if e.saved then s.(task := s.task.(status := FAILURE, progress := COMPLETE)) else s, copy)
  }

  // ---------------------------------------------------------------- schedules

  /** Who reads the unfinished tasks and who processes the copy it has, in which order. */
  datatype Turn = Read(poller: nat) | Update(poller: nat)

  datatype System = System(store: Store, copies: map<nat, Task>)

  function Take(s: System, t: Turn, e: Event): (r: System) {
    match t
    case Read(q) =>
      s.(copies := if e.seen && Unfinished(s.store.task) then s.copies[q := s.store.task] else s.copies - {q})
    case Update(q) =>
      if q !in s.copies then s
      else var h := Handled(s.store, s.copies[q], e); System(h.0, s.copies[q := h.1])
  }

  function Run(s: Store, turns: seq<Turn>, events: seq<Event>, n: nat): (r: System)
    requires n <= |turns| == |events|
  {
    if n == 0 then System(s, map[]) else Take(Run(s, turns, events, n - 1), turns[n - 1], events[n - 1])
  }

  /** A task that was submitted and charged. */
  predicate Submitted(s: Store) {
    !Done(s.task.status) && s.charged == s.task.quota && s.bills == []
  }

  /** After n turns the poller's last turn was a read: it has not processed its copy yet. */
  predicate Holds(turns: seq<Turn>, n: nat, q: nat)
    requires n <= |turns|
  {
    n > 0 && if turns[n - 1].poller == q then turns[n - 1].Read? else Holds(turns, n - 1, q)
  }

  /** The poller processed its copy at turn a and has not read since. */
  predicate Used(turns: seq<Turn>, a: nat, n: nat, q: nat)
    requires n <= |turns|
  {
    a < n && turns[a] == Update(q) && Holds(turns, a, q) && forall k :: a < k < n ==> turns[k] != Read(q)
  }

  /** The same copy is processed twice. */
  predicate Repeat(turns: seq<Turn>, a: nat, b: nat) {
    b < |turns| && turns[b].Update? && Used(turns, a, b, turns[b].poller)
  }

  ghost predicate Repeating(turns: seq<Turn>) {
    exists a, b :: Repeat(turns, a, b)
  }

  // ---------------------------------------------------------------- each copy is processed once

  /** A copy that was not processed yet is of an unfinished task with the original quota. */
  ghost predicate CopyOk(s: System, turns: seq<Turn>, n: nat, q: nat, quota: int)
    requires n <= |turns| && q in s.copies
  {
    if Holds(turns, n, q) then !Done(s.copies[q].status) && s.copies[q].quota == quota
    else exists a :: Used(turns, a, n, q)
  }

  /** At most one bill, for a task that has ended; and the charge is the quota, nothing, or what was settled. */
  predicate StoreOk(s: Store, quota: int) {
    && s.task.quota == quota && |s.bills| <= 1 && (s.bills != [] ==> Done(s.task.status))
    && BillOk(s.bills, quota, s.charged)
  }

  predicate BillOk(bills: seq<Bill>, quota: int, charged: int) {
    if bills == [] then charged == quota
    else
      match bills[0]
      case Refund(q) => q == quota && charged == 0
      case Settle(before, after) => before == quota && charged == after
  }

  ghost predicate Inv(s: System, turns: seq<Turn>, n: nat, quota: int)
    requires n <= |turns|
  {
    StoreOk(s.store, quota) && forall q :: q in s.copies ==> CopyOk(s, turns, n, q, quota)
  }

  lemma BilledOk(s: Store, t: Task, actual: int, paid: bool, quota: int)
    requires StoreOk(s, quota) && s.bills == [] && t.quota == quota && (Done(t.status) ==> Done(s.task.status))
    ensures StoreOk(Billed(s, t, actual, paid).0, quota)
  {
  }

  /** Processing a copy that was not processed yet bills at most once, because only the winner bills. */
  lemma HandledOk(s: Store, copy: Task, e: Event, quota: int)
    requires StoreOk(s, quota) && !Done(copy.status) && copy.quota == quota
    ensures StoreOk(Handled(s, copy, e).0, quota)
  {
    match e.action
    case Report(status, progress, changed, actual) =>
      if Known(status) {
        var t := Merged(copy, status, progress);
        if Wins(s, copy.status, e.saved) { BilledOk(s.(task := t), t, actual, e.paid, quota); }
      }
    case TooManyRequests =>
    case TimedOut(legacy) =>
      var t := copy.(status := FAILURE, progress := COMPLETE);
      if Wins(s, copy.status, e.saved) { BilledOk(s.(task := t), t, 0, e.paid, quota); }
    case BulkFail =>
  }

  lemma UsedLonger(turns: seq<Turn>, a: nat, n: nat, q: nat)
    requires n < |turns| && Used(turns, a, n, q) && turns[n] != Read(q)
    ensures Used(turns, a, n + 1, q)
  {
  }

  lemma OtherCopy(s: System, turns: seq<Turn>, e: Event, n: nat, q: nat, quota: int)
    requires n < |turns| && q in s.copies && CopyOk(s, turns, n, q, quota) && turns[n].poller != q
    ensures var r := Take(s, turns[n], e); q in r.copies && CopyOk(r, turns, n + 1, q, quota)
  {
    if !Holds(turns, n, q) {
      var a :| Used(turns, a, n, q);
      UsedLonger(turns, a, n, q);
    }
  }

  lemma OwnCopy(s: System, turns: seq<Turn>, e: Event, n: nat, quota: int)
    requires n < |turns| && s.store.task.quota == quota
    requires turns[n].poller in s.copies ==> CopyOk(s, turns, n, turns[n].poller, quota)
    ensures var r, q := Take(s, turns[n], e), turns[n].poller; q in r.copies ==> CopyOk(r, turns, n + 1, q, quota)
  {
    var q := turns[n].poller;
    if turns[n].Update? && q in s.copies {
      if Holds(turns, n, q) {
        assert Used(turns, n, n + 1, q);
      } else {
        var a :| Used(turns, a, n, q);
        UsedLonger(turns, a, n, q);
      }
    }
  }

  lemma TurnKeepsInv(s: System, turns: seq<Turn>, e: Event, n: nat, quota: int)
    requires n < |turns| && Inv(s, turns, n, quota) && !Repeating(turns)
    ensures Inv(Take(s, turns[n], e), turns, n + 1, quota)
  {
    var r, q := Take(s, turns[n], e), turns[n].poller;
    OwnCopy(s, turns, e, n, quota);
    forall j | j in r.copies ensures CopyOk(r, turns, n + 1, j, quota) {
      if j != q {
        assert CopyOk(s, turns, n, j, quota);
        OtherCopy(s, turns, e, n, j, quota);
      }
    }
    if turns[n].Update? && q in s.copies {
      assert CopyOk(s, turns, n, q, quota);
      assert forall a :: Used(turns, a, n, q) ==> Repeat(turns, a, n);
      HandledOk(s.store, s.copies[q], e, quota);
    }
  }

  lemma {:induction false} RunKeepsInv(s: Store, turns: seq<Turn>, events: seq<Event>, n: nat)
    requires Submitted(s) && n <= |turns| == |events| && !Repeating(turns)
    ensures Inv(Run(s, turns, events, n), turns, n, s.task.quota)
  {
    if n > 0 {
      RunKeepsInv(s, turns, events, n - 1);
      TurnKeepsInv(Run(s, turns, events, n - 1), turns, events[n - 1], n - 1, s.task.quota);
    }
  }

  /**
    In every interleaving of any number of pollers and sweeps, with stale copies, failing writes, bulk failures and any
    reports, as long as each copy is processed once: the task is billed at its end at most once, by a refund of exactly
    its charge or by one settlement, never both, and the user's charge is the original quota, nothing, or the settled
    quota accordingly.
   */
  lemma BilledAtMostOnce(s: Store, turns: seq<Turn>, events: seq<Event>)
    requires Submitted(s) && |turns| == |events| && !Repeating(turns)
    ensures var r := Run(s, turns, events, |turns|).store;
            && |r.bills| <= 1
            && (r.bills == [] ==> r.charged == s.task.quota)
            && (r.bills != [] ==> Done(r.task.status))
            && (r.bills != [] && r.bills[0].Refund? ==> r.bills[0].quota == s.task.quota && r.charged == 0)
            && (r.bills != [] && r.bills[0].Settle? ==> r.charged == r.bills[0].after)
  {
    RunKeepsInv(s, turns, events, |turns|);
  }

  // ---------------------------------------------------------------- what the winner does, and that the end is billed

  /** A poller that reads gets a copy of a task that has neither ended nor reached 100%, and no other. */
  lemma ReadTakesUnfinished(s: System, q: nat, e: Event)
    ensures var r, t := Take(s, Read(q), e), s.store.task;
            && r.store == s.store
            && (q in r.copies <==> e.seen && t.progress != "100%" && t.status != "SUCCESS" && t.status != "FAILURE")
            && (q in r.copies ==> r.copies[q] == t)
  {
  }

  /** Whoever finds the task changed, or cannot write, changes and bills nothing. */
  lemma LoserDoesNothing(s: Store, copy: Task, e: Event)
    requires !Done(copy.status) && !e.action.BulkFail? && (!e.saved || s.task.status != copy.status)
    ensures Handled(s, copy, e).0 == s
  {
  }

  /** The winner's report is stored; one that ends the task ends it at 100%, unless a success names its own progress. */
  lemma WinnerStores(s: Store, copy: Task, e: Event)
    requires !Done(copy.status) && e.saved && s.task.status == copy.status && e.action.Report? && Known(e.action.status)
    requires || Done(e.action.status) || e.action.changed || e.action.status != copy.status
             || (e.action.progress != "" && e.action.progress != copy.progress)
    ensures var t, a := Handled(s, copy, e).0.task, e.action;
            && t.status == a.status && t.quota == copy.quota
            && (a.status == FAILURE ==> t.progress == "100%")
            && (a.status != FAILURE && a.progress != "" ==> t.progress == a.progress)
            && (a.progress == "" && a.status == SUCCESS ==> t.progress == "100%")
            && (a.progress == "" && a.status == SUBMITTED ==> t.progress == "10%")
            && (a.progress == "" && a.status == QUEUED ==> t.progress == "20%")
            && (a.progress == "" && a.status == IN_PROGRESS ==> t.progress == "30%")
  {
  }

  /** A winning timeout fails the task at 100%; the bill is the charge, and a legacy task gets none. */
  lemma WinnerTimesOut(s: Store, copy: Task, e: Event)
    requires e.saved && e.paid && s.task.status == copy.status && e.action.TimedOut?
    ensures var r := Handled(s, copy, e).0;
            && r.task == Task(FAILURE, "100%", copy.quota)
            && r.bills == (if e.action.legacy || copy.quota == 0 then s.bills else s.bills + [Refund(copy.quota)])
            && r.charged == (if e.action.legacy then s.charged else s.charged - copy.quota)
  {
  }

  /** A bulk failure fails whatever is stored and bills nothing. */
  lemma BulkFailsUnbilled(s: Store, copy: Task, e: Event)
    requires e.action.BulkFail?
    ensures var r := Handled(s, copy, e).0;
            r == s.(task := if e.saved then Task(FAILURE, "100%", s.task.quota) else s.task)
  {
  }

  /** Bills are paid, no bulk failure hits the task, and no timeout takes it for a legacy task. */
  predicate Regular(e: Event) {
    e.paid && !e.action.BulkFail? && !(e.action.TimedOut? && e.action.legacy)
  }

  ghost predicate AllRegular(events: seq<Event>) {
    forall e :: e in events ==> Regular(e)
  }

  /** The bill of a success that reported this quota. */
  function SuccessBills(quota: int, actual: int): (bills: seq<Bill>) {
    if actual > 0 && actual != quota then [Settle(quota, actual)] else []
  }

  /** One of the first n events reported the success that the bills settle. */
  ghost predicate SuccessBilled(bills: seq<Bill>, events: seq<Event>, n: nat, quota: int)
    requires n <= |events|
  {
    exists k :: 0 <= k < n && events[k].action.Report? && events[k].action.status == SUCCESS &&
                bills == SuccessBills(quota, events[k].action.actual)
  }

  /** A failed task is refunded, a successful one settled by its report, any other not billed. */
  ghost predicate EndBilled(s: Store, events: seq<Event>, n: nat, quota: int)
    requires n <= |events|
  {
    if s.task.status == FAILURE then s.bills == (if quota == 0 then [] else [Refund(quota)])
    else if s.task.status == SUCCESS then SuccessBilled(s.bills, events, n, quota)
    else s.bills == []
  }

  /** What one regular event does to the bills of a task that has not ended, or leaves alone. */
  lemma HandledBills(s: Store, copy: Task, e: Event, quota: int)
    requires StoreOk(s, quota) && !Done(copy.status) && copy.quota == quota && Regular(e)
    ensures var r := Handled(s, copy, e).0;
            || r == s
            || (r.task.status == FAILURE && r.bills == if quota == 0 then [] else [Refund(quota)])
            || (&& r.task.status == SUCCESS && e.action.Report? && e.action.status == SUCCESS
                && r.bills == SuccessBills(quota, e.action.actual))
            || (!Done(r.task.status) && r.bills == s.bills == [])
  {
  }

  lemma SuccessLonger(bills: seq<Bill>, events: seq<Event>, n: nat, quota: int)
    requires n < |events| && SuccessBilled(bills, events, n, quota)
    ensures SuccessBilled(bills, events, n + 1, quota)
  {
  }

  lemma HandledEnds(s: Store, copy: Task, events: seq<Event>, n: nat, quota: int)
    requires StoreOk(s, quota) && !Done(copy.status) && copy.quota == quota && n < |events| && Regular(events[n])
    requires EndBilled(s, events, n, quota)
    ensures EndBilled(Handled(s, copy, events[n]).0, events, n + 1, quota)
  {
    HandledBills(s, copy, events[n], quota);
    var r := Handled(s, copy, events[n]).0;
    if r == s && s.task.status == SUCCESS { SuccessLonger(s.bills, events, n, quota); }
    else if r.task.status == SUCCESS { assert r.bills == SuccessBills(quota, events[n].action.actual); }
  }

  lemma TurnEnds(s: System, turns: seq<Turn>, events: seq<Event>, n: nat, quota: int)
    requires n < |turns| == |events| && Inv(s, turns, n, quota) && !Repeating(turns) && Regular(events[n])
    requires EndBilled(s.store, events, n, quota)
    ensures EndBilled(Take(s, turns[n], events[n]).store, events, n + 1, quota)
  {
    var q := turns[n].poller;
    if turns[n].Update? && q in s.copies {
      assert CopyOk(s, turns, n, q, quota);
      assert forall a :: Used(turns, a, n, q) ==> Repeat(turns, a, n);
      HandledEnds(s.store, s.copies[q], events, n, quota);
    } else if s.store.task.status == SUCCESS {
      SuccessLonger(s.store.bills, events, n, quota);
    }
  }

  lemma {:induction false} RunEnds(s: Store, turns: seq<Turn>, events: seq<Event>, n: nat)
    requires Submitted(s) && n <= |turns| == |events| && !Repeating(turns) && AllRegular(events)
    ensures EndBilled(Run(s, turns, events, n).store, events, n, s.task.quota)
  {
    if n > 0 {
      RunEnds(s, turns, events, n - 1);
      RunKeepsInv(s, turns, events, n - 1);
      assert events[n - 1] in events;
      TurnEnds(Run(s, turns, events, n - 1), turns, events, n - 1, s.task.quota);
    }
  }

  /**
    In every interleaving in which each copy is processed once, bills are paid and no bulk failure or legacy timeout hits
    the task: a task stored as failed was refunded its charge exactly once; a task stored as successful was settled
    exactly once to the quota its success reported, or kept its charge where none was reported; any other is unbilled.
   */
  lemma EndedTaskIsBilledOnce(s: Store, turns: seq<Turn>, events: seq<Event>)
    requires Submitted(s) && |turns| == |events| && !Repeating(turns) && AllRegular(events)
    ensures var r, quota := Run(s, turns, events, |turns|).store, s.task.quota;
            && (r.task.status == FAILURE ==> r.charged == 0 && r.bills == if quota == 0 then [] else [Refund(quota)])
            && (r.task.status == SUCCESS ==>
                  exists k :: 0 <= k < |events| && events[k].action.Report? && events[k].action.status == SUCCESS &&
                    var actual := events[k].action.actual;
                    && r.charged == (if actual > 0 then actual else quota)
                    && r.bills == (if actual > 0 && actual != quota then [Settle(quota, actual)] else []))
            && (!Done(r.task.status) ==> r.charged == quota && r.bills == [])
  {
    RunEnds(s, turns, events, |turns|);
    RunKeepsInv(s, turns, events, |turns|);
  }

  // ---------------------------------------------------------------- a copy that is processed twice

  const CHARGED_TASK := Task("NOT_START", "0%", 1)
  const WAIT := Event(true, TooManyRequests, true, true)
  const FAIL := Event(true, Report(FAILURE, "", false, 0), true, true)

  /** Failure at turns a and b, a request to wait at the others. */
  function FailAt(n: nat, a: nat, b: nat): (events: seq<Event>)
    ensures |events| == n && forall k :: 0 <= k < n ==> events[k] == if k == a || k == b then FAIL else WAIT
  {
    seq(n, k requires 0 <= k < n => if k == a || k == b then FAIL else WAIT)
  }

  const CHARGED_STORE := Store(CHARGED_TASK, 1, [])

  lemma {:induction false} UntilFirst(turns: seq<Turn>, a: nat, b: nat, n: nat)
    requires a < b && n <= |turns| && n <= a
    ensures var s := Run(CHARGED_STORE, turns, FailAt(|turns|, a, b), n);
            && s.store == CHARGED_STORE
            && forall q :: Holds(turns, n, q) ==> q in s.copies && s.copies[q] == CHARGED_TASK
  {
    if n > 0 { UntilFirst(turns, a, b, n - 1); }
  }

  lemma {:induction false} UntilSecond(turns: seq<Turn>, a: nat, b: nat, n: nat)
    requires Repeat(turns, a, b) && a < n <= b
    ensures var s, q := Run(CHARGED_STORE, turns, FailAt(|turns|, a, b), n), turns[b].poller;
            && s.store.bills == [Refund(1)] && q in s.copies
            && s.copies[q].status == FAILURE && s.copies[q].quota == 1
  {
    if n == a + 1 {
      UntilFirst(turns, a, b, a);
    } else {
      UntilSecond(turns, a, b, n - 1);
      assert turns[n - 1] != Read(turns[b].poller);
    }
  }

  lemma BillsGrow(s: System, t: Turn, e: Event)
    ensures |s.store.bills| <= |Take(s, t, e).store.bills|
  {
  }

  lemma {:induction false} BillsStay(s: Store, turns: seq<Turn>, events: seq<Event>, n: nat, m: nat)
    requires n <= m <= |turns| == |events|
    ensures |Run(s, turns, events, n).store.bills| <= |Run(s, turns, events, m).store.bills|
  {
    if n < m {
      BillsStay(s, turns, events, n, m - 1);
      BillsGrow(Run(s, turns, events, m - 1), turns[m - 1], events[m - 1]);
    }
  }

  lemma SecondRefund(s: System, q: nat)
    requires q in s.copies && s.copies[q].status == FAILURE && s.copies[q].quota != 0
    ensures |Take(s, Update(q), FAIL).store.bills| == |s.store.bills| + 1
  {
  }

  /** A copy that already failed is billed without a compare-and-set: processing it again refunds again. */
  lemma RepeatRefundsTwice(turns: seq<Turn>, a: nat, b: nat)
    requires Repeat(turns, a, b)
    ensures |Run(CHARGED_STORE, turns, FailAt(|turns|, a, b), |turns|).store.bills| >= 2
  {
    var events := FailAt(|turns|, a, b);
    UntilSecond(turns, a, b, b);
    SecondRefund(Run(CHARGED_STORE, turns, events, b), turns[b].poller);
    BillsStay(CHARGED_STORE, turns, events, b + 1, |turns|);
  }

  /** Whatever happens at its turns, the schedule bills the task at most once. */
  ghost predicate BillsOnce(turns: seq<Turn>) {
    forall s: Store, events: seq<Event> :: Submitted(s) && |events| == |turns| ==>
      |Run(s, turns, events, |turns|).store.bills| <= 1
  }

  /** A schedule is safe exactly when no copy is processed twice. */
  lemma OnceExactlyWithoutRepeat(turns: seq<Turn>)
    ensures BillsOnce(turns) <==> !Repeating(turns)
  {
    if Repeating(turns) {
      var a, b :| Repeat(turns, a, b);
      RepeatRefundsTwice(turns, a, b);
      assert Submitted(CHARGED_STORE);
    } else {
      forall s: Store, events: seq<Event> | Submitted(s) && |events| == |turns|
        ensures |Run(s, turns, events, |turns|).store.bills| <= 1
      {
        BilledAtMostOnce(s, turns, events);
      }
    }
  }

  // ---------------------------------------------------------------- as it is executed

  class TaskRow {
    var task: Task
    var charged: int
    var bills: seq<Bill>

    constructor (task: Task)
      ensures State() == Store(task, task.quota, [])
    {
      this.task, charged, bills := task, task.quota, [];
    }

    function State(): (s: Store)
      reads this
    {
      Store(task, charged, bills)
    }

    method UpdateWithStatus(t: Task, from: string, saved: bool) returns (won: bool)
      modifies this`task
      ensures won == Wins(old(State()), from, saved)
      ensures task == if won then t else old(task)
    {
      won := saved && task.status == from;
      if won { task := t; }
    }

    /** RefundTaskQuota or the settlement. */
    method BillTask(t: Task, actual: int, paid: bool) returns (copy: Task)
      modifies this`charged, this`bills
      ensures (State(), copy) == Billed(old(State()), t, actual, paid)
    {
      copy := t;
      if t.status == FAILURE {
        if t.quota == 0 { return; }
        if paid { charged, bills := charged - t.quota, bills + [Refund(t.quota)]; }
      } else if t.status == SUCCESS {
        if actual <= 0 || actual == t.quota { return; }
        if paid {
          charged, bills := charged + (actual - t.quota), bills + [Settle(t.quota, actual)];
          copy := t.(quota := actual);
        }
      }
    }

    /** updateVideoSingleTask from the parsed result on. */
    method UpdateVideoSingleTask(seen: Task, status: string, progress: string, changed: bool, actual: int,
                                 saved: bool, paid: bool) returns (copy: Task)
      modifies this
      ensures (State(), copy) == Polled(old(State()), seen, status, progress, changed, actual, saved, paid)
    {
      copy := seen.(status := status);
      if !Known(status) { return; }
      copy := copy.(progress := DefaultProgress(status));
      if status != FAILURE && progress != "" { copy := copy.(progress := progress); }
      var bill := true;
      if Done(status) && seen.status != status {
        bill := UpdateWithStatus(copy, seen.status, saved);
      } else if copy != seen || changed {
        var won := UpdateWithStatus(copy, seen.status, saved);
      }
      if bill { copy := BillTask(copy, actual, paid); }
    }

    /** The body of the loop of sweepTimedOutTasks. */
    method Sweep(seen: Task, legacy: bool, saved: bool, paid: bool) returns (copy: Task)
      modifies this
      ensures (State(), copy) == Swept(old(State()), seen, legacy, saved, paid)
    {
      copy := seen.(status := FAILURE, progress := COMPLETE);
      var won := UpdateWithStatus(copy, seen.status, saved);
      if won && !legacy { copy := BillTask(copy, 0, paid); }
    }
  }
}
