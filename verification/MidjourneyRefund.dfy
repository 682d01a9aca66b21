/**
  Midjourney task polling (controller/midjourney.go): pollers take snapshots of unfinished rows, merge upstream reports
  into them, write them back with a compare-and-set on the status, and refund the winner's failed task.
 */
module MidjourneyRefund {
  type Id = string
  type Poller = nat

  const FAILURE := "FAILURE"
  const COMPLETE := "100%"
  const TIMEOUT_MILLIS := 3600000
  const TIMEOUT_REASON := "上游任务超时（超过1小时）"

  /** The columns that are only copied and compared; video addresses in the form they are stored in. */
  datatype Details = Details(promptEn: string, state: string, submitTime: int, startTime: int, finishTime: int,
                             imageUrl: string, videoUrl: string, videoUrls: string)

  datatype Row = Row(code: int, status: string, progress: string, reason: string, details: Details, quota: int)

  datatype Report = Report(status: string, progress: string, reason: string, details: Details)

  /** The stored rows and the refunds paid so far. */
  datatype Store = Store(rows: map<Id, Row>, ledger: seq<(Id, int)>)

  /** A report for a task that has been running for more than an hour counts as a failure. */
  function Effective(task: Row, r: Report, now: int): (e: Report) {
    if now - task.details.submitTime > TIMEOUT_MILLIS && task.progress != COMPLETE
    then r.(reason := TIMEOUT_REASON, status := FAILURE) else r
  }

  /** checkMjTaskNeedUpdate. */
  predicate NeedUpdate(task: Row, r: Report) {
    || task.code != 1 || task.progress != r.progress || task.details != r.details
    || task.status != r.status || task.reason != r.reason || (task.progress != COMPLETE && r.reason != "")
  }

  predicate Failed(r: Report) {
    if r.progress == COMPLETE then r.status == FAILURE else r.reason != ""
  }

  /** The task as it is after the report was merged into it. */
  function Merged(task: Row, r: Report): (t: Row) {
    Row(1, r.status, if Failed(r) then COMPLETE else r.progress, r.reason, r.details, task.quota)
  }

  /** UpdateWithStatus wins when the stored status is still the one the snapshot had. */
  predicate Wins(s: Store, id: Id, from: string) {
    id in s.rows && s.rows[id].status == from
  }

  /** One response item: the store afterwards and the poller's copy of the task afterwards. */
  function Handle(s: Store, id: Id, task: Row, report: Report, now: int): (r: (Store, Row)) {
    var e := Effective(task, report, now);
    if !NeedUpdate(task, e) then (s, task)
    else
      var t := Merged(task, e);
      if !Wins(s, id, task.status) then (s, t)
      else (Store(s.rows[id := t], if Failed(e) && t.quota != 0 then s.ledger + [(id, t.quota)] else s.ledger), t)
  }

  // ---------------------------------------------------------------- any number of pollers

  datatype System = System(store: Store, tasks: map<(Poller, Id), Row>)

  datatype Action =
    | Fetch(poller: Poller, id: Id)                            // read an unfinished row
    | Process(poller: Poller, id: Id, report: Report, now: int) // one item of a response, one item per task
    | BulkFail(id: Id, why: string)                             // the unconditional bulk updates

  function Step(s: System, a: Action): (r: System) {
    match a
    case Fetch(p, id) =>
      if id in s.store.rows && s.store.rows[id].progress != COMPLETE
      then s.(tasks := s.tasks[(p, id) := s.store.rows[id]]) else s
    case Process(p, id, report, now) =>
      if (p, id) in s.tasks
      then System(Handle(s.store, id, s.tasks[(p, id)], report, now).0, s.tasks - {(p, id)}) else s
    case BulkFail(id, why) =>
      if id in s.store.rows
      then s.(store := s.store.(rows := s.store.rows[
                  id := s.store.rows[id].(status := FAILURE, progress := COMPLETE, reason := why)]))
      else s
  }

  function Run(s: System, actions: seq<Action>): (r: System) {
    if actions == [] then s else Step(Run(s, actions[..|actions| - 1]), actions[|actions| - 1])
  }

  /** Rows as submission leaves them: nothing failed is still unfinished. */
  ghost predicate Start(s: System) {
    s.tasks == map[] && s.store.ledger == [] && Closed(s.store.rows)
  }

  ghost predicate Closed(rows: map<Id, Row>) {
    forall id :: id in rows && rows[id].status == FAILURE ==> rows[id].progress == COMPLETE
  }

  /** A report below 100% carries a fail reason exactly when its status is FAILURE. */
  predicate Honest(r: Report) {
    r.progress != COMPLETE ==> (r.reason != "" <==> r.status == FAILURE)
  }

  // ---------------------------------------------------------------- invariant

  /** No task is refunded twice. */
  ghost predicate Once(ledger: seq<(Id, int)>) {
    forall i, j :: 0 <= i < j < |ledger| ==> ledger[i].0 != ledger[j].0
  }

  /** A refunded task is stored as failed, and the refund was its quota. */
  ghost predicate Paid(rows: map<Id, Row>, ledger: seq<(Id, int)>) {
    forall e :: e in ledger ==> e.0 in rows && rows[e.0].status == FAILURE && e.1 == rows[e.0].quota
  }

  /** Snapshots are of tasks that had not failed. */
  ghost predicate Snapshots(rows: map<Id, Row>, tasks: map<(Poller, Id), Row>) {
    forall k :: k in tasks ==> k.1 in rows && tasks[k].status != FAILURE && tasks[k].quota == rows[k.1].quota
  }

  ghost predicate Inv(s: System) {
    && Closed(s.store.rows) && Once(s.store.ledger) && Paid(s.store.rows, s.store.ledger)
    && Snapshots(s.store.rows, s.tasks)
  }

  ghost predicate SameQuotas(a: map<Id, Row>, b: map<Id, Row>) {
    a.Keys == b.Keys && forall id :: id in a ==> a[id].quota == b[id].quota
  }

  /** A merged honest report fails the task exactly when it stores FAILURE, and then stores it as finished. */
  lemma MergedHonest(task: Row, report: Report, now: int)
    requires Honest(report)
    ensures var e := Effective(task, report, now);
            && (Failed(e) <==> Merged(task, e).status == FAILURE)
            && (Merged(task, e).status == FAILURE ==> Merged(task, e).progress == COMPLETE)
  {
  }

  lemma HandleKeeps(s: Store, id: Id, task: Row, report: Report, now: int)
    requires Closed(s.rows) && Once(s.ledger) && Paid(s.rows, s.ledger)
    requires Honest(report) && id in s.rows && task.status != FAILURE && task.quota == s.rows[id].quota
    ensures var r := Handle(s, id, task, report, now).0;
            Closed(r.rows) && Once(r.ledger) && Paid(r.rows, r.ledger) && SameQuotas(s.rows, r.rows)
  {
    var e, r := Effective(task, report, now), Handle(s, id, task, report, now).0;
    MergedHonest(task, report, now);
    if NeedUpdate(task, e) && Wins(s, id, task.status) {
      forall k | 0 <= k < |s.ledger| ensures s.ledger[k].0 != id { assert s.ledger[k] in s.ledger; }
      forall x | x in r.ledger ensures x.0 in r.rows && r.rows[x.0].status == FAILURE && x.1 == r.rows[x.0].quota {
        if x in s.ledger { assert x.0 != id; }
      }
    }
  }

  lemma StepKeeps(s: System, a: Action)
    requires Inv(s) && (a.Process? ==> Honest(a.report))
    ensures Inv(Step(s, a)) && SameQuotas(s.store.rows, Step(s, a).store.rows)
  {
    match a
    case Fetch(p, id) =>
    case Process(p, id, report, now) =>
      if (p, id) in s.tasks {
        HandleKeeps(s.store, id, s.tasks[(p, id)], report, now);
        var rows, r := s.store.rows, Step(s, a);
        forall k | k in r.tasks
          ensures k.1 in r.store.rows && r.tasks[k].status != FAILURE && r.tasks[k].quota == r.store.rows[k.1].quota
        {
          assert k in s.tasks && r.tasks[k] == s.tasks[k];
        }
      }
    case BulkFail(id, why) =>
  }

  ghost predicate AllHonest(actions: seq<Action>) {
    forall a :: a in actions && a.Process? ==> Honest(a.report)
  }

  lemma {:induction false} RunKeeps(s: System, actions: seq<Action>)
    requires Inv(s) && AllHonest(actions)
    ensures Inv(Run(s, actions)) && SameQuotas(s.store.rows, Run(s, actions).store.rows)
  {
    if actions != [] {
      var before, a := actions[..|actions| - 1], actions[|actions| - 1];
      assert a in actions && forall b :: b in before ==> b in actions;
      RunKeeps(s, before);
      StepKeeps(Run(s, before), a);
    }
  }

  /**
    In every interleaving of any number of pollers with stale snapshots, a task is refunded at most once, by exactly the
    quota it was charged, and only when it ends as a failed task.
   */
  lemma RefundedAtMostOnce(s: System, actions: seq<Action>)
    requires Start(s) && AllHonest(actions)
    ensures var r := Run(s, actions).store;
            && Once(r.ledger)
            && forall e :: e in r.ledger ==>
                 e.0 in r.rows && r.rows[e.0].status == FAILURE && r.rows[e.0].progress == COMPLETE &&
                 e.0 in s.store.rows && e.1 == s.store.rows[e.0].quota
  {
    RunKeeps(s, actions);
    var r := Run(s, actions).store;
    forall e | e in r.ledger
      ensures e.0 in r.rows && r.rows[e.0].status == FAILURE && r.rows[e.0].progress == COMPLETE &&
              e.0 in s.store.rows && e.1 == s.store.rows[e.0].quota
    {
      assert e.0 in r.rows.Keys;
    }
  }

  // ---------------------------------------------------------------- no failure goes without its refund

  /** A report is skipped exactly when the row holds it already. */
  lemma SkippedChangesNothing(task: Row, e: Report)
    ensures NeedUpdate(task, e) <==> Merged(task, e) != task || task.progress != e.progress
  {
  }

  /** The winner stores the report in the row and keeps its quota; a failure is stored at 100%. */
  lemma WinnerStores(s: Store, id: Id, task: Row, report: Report, now: int)
    requires Wins(s, id, task.status) && !(now - task.details.submitTime > 3600000 && task.progress != "100%")
    ensures var t := Handle(s, id, task, report, now).1;
            var failed := if report.progress == "100%" then report.status == "FAILURE" else report.reason != "";
            && (NeedUpdate(task, report) ==> Handle(s, id, task, report, now).0.rows == s.rows[id := t])
            && t.status == report.status && t.reason == report.reason && t.details == report.details
            && t.quota == task.quota && t.code == 1 && t.progress == (if failed then "100%" else report.progress)
  {
    if !NeedUpdate(task, report) { SkippedChangesNothing(task, report); }
  }

  /** A task that has run for more than an hour fails whatever is reported, and its quota is refunded. */
  lemma TimeoutRefunds(s: Store, id: Id, task: Row, report: Report, now: int)
    requires Wins(s, id, task.status) && now - task.details.submitTime > 3600000 && task.progress != "100%"
    ensures var r := Handle(s, id, task, report, now);
            && r.0.rows == s.rows[id := r.1] && r.1.status == "FAILURE" && r.1.progress == "100%"
            && r.0.ledger == if task.quota == 0 then s.ledger else s.ledger + [(id, task.quota)]
  {
  }

  /** Whoever finds the stored status changed changes nothing. */
  lemma LoserDoesNothing(s: Store, id: Id, task: Row, report: Report, now: int)
    requires !Wins(s, id, task.status)
    ensures Handle(s, id, task, report, now).0 == s
  {
  }

  /** A charged task that has failed since `first`. */
  predicate Charged(first: map<Id, Row>, rows: map<Id, Row>, id: Id) {
    && id in rows && rows[id].status == FAILURE && rows[id].quota != 0
    && !(id in first && first[id].status == FAILURE)
  }

  ghost predicate FailuresPaid(first: map<Id, Row>, s: Store) {
    forall id :: Charged(first, s.rows, id) ==> (id, s.rows[id].quota) in s.ledger
  }

  /** A poller that fetches an unfinished row gets it as it is stored. */
  lemma FetchTakesUnfinished(s: System, p: Poller, id: Id)
    requires id in s.store.rows && s.store.rows[id].progress != "100%"
    ensures var r := Step(s, Fetch(p, id)); (p, id) in r.tasks && r.tasks[(p, id)] == s.store.rows[id]
    ensures Step(s, Fetch(p, id)).store == s.store
  {
  }

  lemma HandlePays(first: map<Id, Row>, s: Store, id: Id, task: Row, report: Report, now: int)
    requires FailuresPaid(first, s) && Honest(report) && task.status != FAILURE
    requires id in s.rows && task.quota == s.rows[id].quota
    ensures FailuresPaid(first, Handle(s, id, task, report, now).0)
  {
    var e, r := Effective(task, report, now), Handle(s, id, task, report, now).0;
    MergedHonest(task, report, now);
    assert forall x :: x in s.ledger ==> x in r.ledger;
  }

  lemma StepPays(first: map<Id, Row>, s: System, a: Action)
    requires Inv(s) && FailuresPaid(first, s.store) && !a.BulkFail? && (a.Process? ==> Honest(a.report))
    ensures FailuresPaid(first, Step(s, a).store)
  {
    if a.Process? && (a.poller, a.id) in s.tasks {
      HandlePays(first, s.store, a.id, s.tasks[(a.poller, a.id)], a.report, a.now);
    }
  }

  ghost predicate NoBulkFail(actions: seq<Action>) {
    forall a :: a in actions ==> !a.BulkFail?
  }

  lemma {:induction false} RunPays(s: System, actions: seq<Action>)
    requires Start(s) && AllHonest(actions) && NoBulkFail(actions)
    ensures FailuresPaid(s.store.rows, Run(s, actions).store)
  {
    if actions != [] {
      var before, a := actions[..|actions| - 1], actions[|actions| - 1];
      assert a in actions && forall b :: b in before ==> b in actions;
      RunPays(s, before);
      RunKeeps(s, before);
      StepPays(s.store.rows, Run(s, before), a);
    }
  }

  /**
    In every interleaving of pollers with honest reports and without bulk failures, a charged task that fails is refunded
    exactly once, by its quota, and no other task is refunded at all.
   */
  lemma RefundedExactlyOnce(s: System, actions: seq<Action>, id: Id)
    requires Start(s) && AllHonest(actions) && NoBulkFail(actions)
    requires id in s.store.rows && s.store.rows[id].status != FAILURE
    ensures var r, quota := Run(s, actions).store, s.store.rows[id].quota;
            && id in r.rows && Once(r.ledger)
            && (r.rows[id].status == FAILURE && quota != 0 ==> (id, quota) in r.ledger)
            && (forall e :: e in r.ledger && e.0 == id ==> r.rows[id].status == FAILURE && e.1 == quota)
  {
    RefundedAtMostOnce(s, actions);
    RunPays(s, actions);
    RunKeeps(s, actions);
    assert id in s.store.rows.Keys;
  }

  function Total(ledger: seq<(Id, int)>): (t: int) {
    if ledger == [] then 0 else Total(ledger[..|ledger| - 1]) + ledger[|ledger| - 1].1
  }

  ghost function Refunded(ledger: seq<(Id, int)>): (ids: set<Id>) {
    set e | e in ledger :: e.0
  }

  function QuotaOf(rows: map<Id, Row>, id: Id): (q: int) {
    if id in rows then rows[id].quota else 0
  }

  ghost function Sum(rows: map<Id, Row>, ids: set<Id>): (t: int) {
    if ids == {} then 0 else var id :| id in ids; Sum(rows, ids - {id}) + QuotaOf(rows, id)
  }

  lemma {:induction false} SumTake(rows: map<Id, Row>, ids: set<Id>, x: Id)
    requires x in ids
    ensures Sum(rows, ids) == Sum(rows, ids - {x}) + QuotaOf(rows, x)
    decreases |ids|
  {
    var id :| id in ids && Sum(rows, ids) == Sum(rows, ids - {id}) + QuotaOf(rows, id);
    if id != x {
      SumTake(rows, ids - {id}, x);
      SumTake(rows, ids - {x}, id);
      assert ids - {id} - {x} == ids - {x} - {id};
    }
  }

  lemma RefundedSnoc(init: seq<(Id, int)>, e: (Id, int))
    requires Once(init + [e])
    ensures Refunded(init + [e]) == Refunded(init) + {e.0} && e.0 !in Refunded(init)
    ensures Once(init)
  {
    var ledger := init + [e];
    assert forall k :: 0 <= k < |init| ==> ledger[k] == init[k] && init[k].0 != ledger[|init|].0;
  }

  lemma {:induction false} LedgerTotal(rows: map<Id, Row>, ledger: seq<(Id, int)>)
    requires Once(ledger) && forall e :: e in ledger ==> e.1 == QuotaOf(rows, e.0)
    ensures Total(ledger) == Sum(rows, Refunded(ledger))
  {
    if ledger != [] {
      var init, e := ledger[..|ledger| - 1], ledger[|ledger| - 1];
      assert ledger == init + [e];
      assert e in ledger && forall x :: x in init ==> x in ledger;
      RefundedSnoc(init, e);
      LedgerTotal(rows, init);
      SumTake(rows, Refunded(ledger), e.0);
      assert Refunded(ledger) - {e.0} == Refunded(init);
    }
  }

  /** Conservation: what was paid back in all is the sum of the charged quotas over the set of refunded tasks. */
  lemma RefundsAreConserved(s: System, actions: seq<Action>)
    requires Start(s) && AllHonest(actions)
    ensures var ledger := Run(s, actions).store.ledger; Total(ledger) == Sum(s.store.rows, Refunded(ledger))
  {
    RefundedAtMostOnce(s, actions);
    LedgerTotal(s.store.rows, Run(s, actions).store.ledger);
  }

  // ---------------------------------------------------------------- why the reports must be honest

  const SOME_DETAILS := Details("", "", 0, 0, 0, "", "", "")

  /** One charged task whose stored status is the one the report carries, or a fresh one. */
  function Victim(r: Report): (s: System) {
    var status := if r.status == FAILURE then "" else r.status;
    System(Store(map["m" := Row(0, status, "0%", "", SOME_DETAILS, 1)], []), map[])
  }

  /** A fail reason without FAILURE is processed twice; FAILURE without a reason is picked up again by two pollers. */
  function Doubling(r: Report): (actions: seq<Action>) {
    if r.status != FAILURE then
      [Fetch(0, "m"), Fetch(1, "m"), Process(0, "m", r, 0), Process(1, "m", r, 0)]
    else
      var late := r.details.submitTime + TIMEOUT_MILLIS + 1;
      [Fetch(0, "m"), Process(0, "m", r, 0), Fetch(0, "m"), Fetch(1, "m"),
       Process(0, "m", r, late), Process(1, "m", r, late)]
  }

  lemma RunSnoc(s: System, actions: seq<Action>, a: Action)
    ensures Run(s, actions + [a]) == Step(Run(s, actions), a)
  {
    assert (actions + [a])[..|actions|] == actions;
  }

  lemma RunTwo(s: System, a: Action, b: Action)
    ensures Run(s, [a, b]) == Step(Step(s, a), b)
  {
    RunSnoc(s, [], a);
    RunSnoc(s, [a], b);
    assert [] + [a] == [a] && [a] + [b] == [a, b];
  }

  lemma RunFour(s: System, a: Action, b: Action, c: Action, d: Action)
    ensures Run(s, [a, b, c, d]) == Step(Step(Step(Step(s, a), b), c), d)
  {
    RunTwo(s, a, b);
    RunSnoc(s, [a, b], c);
    RunSnoc(s, [a, b, c], d);
    assert [a, b] + [c] == [a, b, c] && [a, b, c] + [d] == [a, b, c, d];
  }

  lemma RunSix(s: System, a: Action, b: Action, c: Action, d: Action, e: Action, f: Action)
    ensures Run(s, [a, b, c, d, e, f]) == Step(Step(Step(Step(Step(Step(s, a), b), c), d), e), f)
  {
    RunFour(s, a, b, c, d);
    RunSnoc(s, [a, b, c, d], e);
    RunSnoc(s, [a, b, c, d, e], f);
    assert [a, b, c, d] + [e] == [a, b, c, d, e] && [a, b, c, d, e] + [f] == [a, b, c, d, e, f];
  }

  /** Two pollers fetch the same unfinished row and each process a report that fails it without moving its status. */
  lemma TwoPollersWin(s: System, row: Row, r: Report, now: int)
    requires s.store.rows == map["m" := row] && row.progress != COMPLETE && row.quota != 0
    requires var e := Effective(row, r, now); e.progress != COMPLETE && e.reason != "" && e.status == row.status
    ensures var s2 := Step(Step(s, Fetch(0, "m")), Fetch(1, "m"));
            var s4 := Step(Step(s2, Process(0, "m", r, now)), Process(1, "m", r, now));
            s4.store.ledger == s.store.ledger + [("m", row.quota)] + [("m", row.quota)]
  {
    var e := Effective(row, r, now);
    var s2 := Step(Step(s, Fetch(0, "m")), Fetch(1, "m"));
    assert s2.store == s.store && s2.tasks[(0, "m")] == row && s2.tasks[(1, "m")] == row;
    var s3 := Step(s2, Process(0, "m", r, now));
    assert s3.store == Store(map["m" := row]["m" := Merged(row, e)], s.store.ledger + [("m", row.quota)]);
    assert s3.tasks[(1, "m")] == row;
  }

  lemma ReasonWithoutFailure(r: Report)
    requires r.progress != COMPLETE && r.reason != "" && r.status != FAILURE
    ensures Run(Victim(r), Doubling(r)).store.ledger == [("m", 1), ("m", 1)]
  {
    var s := Victim(r);
    RunFour(s, Fetch(0, "m"), Fetch(1, "m"), Process(0, "m", r, 0), Process(1, "m", r, 0));
    TwoPollersWin(s, s.store.rows["m"], r, 0);
  }

  lemma FailureWithoutReason(r: Report)
    requires r.progress != COMPLETE && r.reason == "" && r.status == FAILURE
    ensures Run(Victim(r), Doubling(r)).store.ledger == [("m", 1), ("m", 1)]
  {
    var s := Victim(r);
    var task := s.store.rows["m"];
    var late := r.details.submitTime + TIMEOUT_MILLIS + 1;
    RunSix(s, Fetch(0, "m"), Process(0, "m", r, 0), Fetch(0, "m"), Fetch(1, "m"),
           Process(0, "m", r, late), Process(1, "m", r, late));
    var s2 := Step(Step(s, Fetch(0, "m")), Process(0, "m", r, 0));
    assert s2.store == Store(map["m" := task]["m" := Merged(task, r)], []);
    assert s2.store.rows == map["m" := Merged(task, r)];
    TwoPollersWin(s2, Merged(task, r), r, late);
  }

  ghost predicate Reports(actions: seq<Action>, allowed: Report -> bool) {
    forall a :: a in actions && a.Process? ==> allowed(a.report)
  }

  /** Every run fed with the allowed reports refunds each task at most once. */
  ghost predicate NeverTwice(allowed: Report -> bool) {
    forall s: System, actions: seq<Action> :: Start(s) && Reports(actions, allowed) ==>
      Once(Run(s, actions).store.ledger)
  }

  /** Refunds are safe exactly for upstreams whose reports are all honest. */
  lemma SafeExactlyForHonestReports(allowed: Report -> bool)
    ensures NeverTwice(allowed) <==> forall r :: allowed(r) ==> Honest(r)
  {
    if forall r :: allowed(r) ==> Honest(r) {
      forall s: System, actions: seq<Action> | Start(s) && Reports(actions, allowed)
        ensures Once(Run(s, actions).store.ledger)
      {
        RefundedAtMostOnce(s, actions);
      }
    } else {
      var r :| allowed(r) && !Honest(r);
      DishonestReport(r);
      assert Reports(Doubling(r), allowed);
    }
  }

  lemma DishonestReport(r: Report)
    requires !Honest(r)
    ensures Start(Victim(r)) && !Once(Run(Victim(r), Doubling(r)).store.ledger)
    ensures forall a :: a in Doubling(r) && a.Process? ==> a.report == r
  {
    if r.status == FAILURE { FailureWithoutReason(r); } else { ReasonWithoutFailure(r); }
    var ledger := Run(Victim(r), Doubling(r)).store.ledger;
    assert ledger[0].0 == ledger[1].0;
  }

  // ---------------------------------------------------------------- the loop over one response

  /** The items of one response, handled in order on the poller's own copies of the tasks. */
  function HandleAll(s: Store, tasks: map<Id, Row>, items: seq<(Id, Report)>, now: int): (r: (Store, map<Id, Row>))
    requires forall x :: x in items ==> x.0 in tasks
    ensures r.1.Keys == tasks.Keys
  {
    if items == [] then (s, tasks)
    else
      var init, x := items[..|items| - 1], items[|items| - 1];
      assert x in items && forall y :: y in init ==> y in items;
      var before := HandleAll(s, tasks, init, now);
      var h := Handle(before.0, x.0, before.1[x.0], x.1, now);
      (h.0, before.1[x.0 := h.1])
  }

  lemma HandleSnoc(s: Store, tasks: map<Id, Row>, items: seq<(Id, Report)>, x: (Id, Report), now: int)
    requires (forall y :: y in items ==> y.0 in tasks) && x.0 in tasks
    ensures var before := HandleAll(s, tasks, items, now);
            var h := Handle(before.0, x.0, before.1[x.0], x.1, now);
            (forall y :: y in items + [x] ==> y.0 in tasks) &&
            HandleAll(s, tasks, items + [x], now) == (h.0, before.1[x.0 := h.1])
  {
    assert (items + [x])[..|items|] == items;
  }

  function ItemActions(p: Poller, items: seq<(Id, Report)>, now: int): (r: seq<Action>) {
    if items == [] then []
    else
      var x := items[|items| - 1];
      ItemActions(p, items[..|items| - 1], now) + [Process(p, x.0, x.1, now)]
  }

  ghost predicate DistinctIds(items: seq<(Id, Report)>) {
    forall i, j :: 0 <= i < j < |items| ==> items[i].0 != items[j].0
  }

  ghost predicate Mentions(items: seq<(Id, Report)>, id: Id) {
    exists x :: x in items && x.0 == id
  }

  lemma {:induction false} CopyUntouched(s: Store, tasks: map<Id, Row>, items: seq<(Id, Report)>, now: int, id: Id)
    requires (forall x :: x in items ==> x.0 in tasks) && id in tasks && !Mentions(items, id)
    ensures HandleAll(s, tasks, items, now).1[id] == tasks[id]
  {
    if items != [] {
      var init, x := items[..|items| - 1], items[|items| - 1];
      assert x in items && forall y :: y in init ==> y in items;
      CopyUntouched(s, tasks, init, now, id);
    }
  }

  lemma {:induction false} SnapshotUntouched(s: System, p: Poller, items: seq<(Id, Report)>, now: int, id: Id)
    requires !Mentions(items, id) && (p, id) in s.tasks
    ensures var r := Run(s, ItemActions(p, items, now)); (p, id) in r.tasks && r.tasks[(p, id)] == s.tasks[(p, id)]
  {
    if items != [] {
      var init, x := items[..|items| - 1], items[|items| - 1];
      assert x in items && forall y :: y in init ==> y in items;
      SnapshotUntouched(s, p, init, now, id);
      RunSnoc(s, ItemActions(p, init, now), Process(p, x.0, x.1, now));
    }
  }

  lemma LastIsNew(items: seq<(Id, Report)>)
    requires items != [] && DistinctIds(items)
    ensures !Mentions(items[..|items| - 1], items[|items| - 1].0)
  {
    var init, x := items[..|items| - 1], items[|items| - 1];
    forall y | y in init ensures y.0 != x.0 {
      var i :| 0 <= i < |init| && init[i] == y;
      assert items[i].0 != items[|items| - 1].0;
    }
  }

  /** A response that names each task once is a run of single items, so the theorem about runs covers the loop. */
  lemma {:induction false} ResponseIsRun(s: System, p: Poller, tasks: map<Id, Row>, items: seq<(Id, Report)>, now: int)
    requires DistinctIds(items)
    requires forall x :: x in items ==> x.0 in tasks && (p, x.0) in s.tasks && s.tasks[(p, x.0)] == tasks[x.0]
    ensures Run(s, ItemActions(p, items, now)).store == HandleAll(s.store, tasks, items, now).0
  {
    if items != [] {
      var init, x := items[..|items| - 1], items[|items| - 1];
      assert x in items && forall y :: y in init ==> y in items;
      LastIsNew(items);
      ResponseIsRun(s, p, tasks, init, now);
      RunSnoc(s, ItemActions(p, init, now), Process(p, x.0, x.1, now));
      CopyUntouched(s.store, tasks, init, now, x.0);
      SnapshotUntouched(s, p, init, now, x.0);
    }
  }

  /** What a poller may hold: copies of tasks that had not failed when they were read, and rows and refunds in order. */
  ghost predicate Ready(s: Store, tasks: map<Id, Row>) {
    && Closed(s.rows) && Once(s.ledger) && Paid(s.rows, s.ledger)
    && forall id :: id in tasks ==>
         id in s.rows && tasks[id].status != FAILURE && tasks[id].quota == s.rows[id].quota
  }

  ghost predicate HonestItems(items: seq<(Id, Report)>) {
    forall x :: x in items ==> Honest(x.1)
  }

  function IdsOf(items: seq<(Id, Report)>): (ids: seq<Id>)
    ensures |ids| == |items| && forall i :: 0 <= i < |items| ==> ids[i] == items[i].0
  {
    seq(|items|, i requires 0 <= i < |items| => items[i].0)
  }

  ghost predicate Distinct(ids: seq<Id>) {
    forall i, j :: 0 <= i < j < |ids| ==> ids[i] != ids[j]
  }

  lemma {:induction false} ItemActionsHonest(p: Poller, items: seq<(Id, Report)>, now: int)
    requires HonestItems(items)
    ensures AllHonest(ItemActions(p, items, now))
  {
    if items != [] {
      var init, x := items[..|items| - 1], items[|items| - 1];
      assert x in items && forall y :: y in init ==> y in items;
      ItemActionsHonest(p, init, now);
    }
  }

  /** A response that names each task once refunds each task at most once. */
  lemma DistinctResponse(s: Store, tasks: map<Id, Row>, items: seq<(Id, Report)>, now: int)
    requires Ready(s, tasks) && HonestItems(items) && DistinctIds(items) && forall x :: x in items ==> x.0 in tasks
    ensures Once(HandleAll(s, tasks, items, now).0.ledger)
  {
    var sys := System(s, map id | id in tasks :: (0, id) := tasks[id]);
    forall x | x in items ensures (0, x.0) in sys.tasks && sys.tasks[(0, x.0)] == tasks[x.0] {
      assert x.0 in tasks;
    }
    assert Inv(sys);
    ItemActionsHonest(0, items, now);
    RunKeeps(sys, ItemActions(0, items, now));
    ResponseIsRun(sys, 0, tasks, items, now);
  }

  const FAILING := Report(FAILURE, "0%", "x", SOME_DETAILS)

  /** A failing report for every id. */
  function Failing(ids: seq<Id>): (items: seq<(Id, Report)>) {
    if ids == [] then [] else Failing(ids[..|ids| - 1]) + [(ids[|ids| - 1], FAILING)]
  }

  lemma {:induction false} FailingIds(ids: seq<Id>)
    ensures IdsOf(Failing(ids)) == ids && HonestItems(Failing(ids))
    ensures forall x :: x in Failing(ids) ==> x.0 in ids
  {
    if ids != [] {
      var init := ids[..|ids| - 1];
      FailingIds(init);
      assert ids == init + [ids[|ids| - 1]];
    }
  }

  /** Charged tasks that were just submitted. */
  ghost function Submitted(ids: seq<Id>): (rows: map<Id, Row>) {
    map id | id in ids :: Row(0, "", "0%", "", SOME_DETAILS, 1)
  }

  /** A copy that a failing report changes: new, or finished by an earlier item. */
  predicate Refundable(task: Row) {
    task.quota == 1 && task.details == SOME_DETAILS && (task.code != 1 || task.progress == COMPLETE)
  }

  lemma FailOnce(s: Store, id: Id, task: Row)
    requires id in s.rows && s.rows[id] == task && Refundable(task)
    ensures var r := Handle(s, id, task, FAILING, 0);
            && r.0 == Store(s.rows[id := r.1], s.ledger + [(id, 1)]) && Refundable(r.1)
  {
    assert Effective(task, FAILING, 0) == FAILING;
  }

  ghost predicate AllRefundable(rows: map<Id, Row>, ids: seq<Id>) {
    forall id :: id in ids ==> id in rows && Refundable(rows[id])
  }

  /** After n failing items: one refund for each, and copies that are as refundable as before. */
  ghost predicate Refunding(r: (Store, map<Id, Row>), ids: seq<Id>, n: nat)
    requires n <= |ids|
  {
    && r.0.rows == r.1 && AllRefundable(r.1, ids)
    && |r.0.ledger| == n && forall k :: 0 <= k < n ==> r.0.ledger[k].0 == ids[k]
  }

  lemma RefundingStep(r: (Store, map<Id, Row>), ids: seq<Id>, n: nat)
    requires n < |ids| && Refunding(r, ids, n)
    ensures ids[n] in r.1
    ensures var h := Handle(r.0, ids[n], r.1[ids[n]], FAILING, 0); Refunding((h.0, r.1[ids[n] := h.1]), ids, n + 1)
  {
    assert ids[n] in ids;
    FailOnce(r.0, ids[n], r.1[ids[n]]);
  }

  /** Every failing item is refunded, whether its task was refunded before or not. */
  lemma {:induction false} EveryItemRefunds(rows: map<Id, Row>, ids: seq<Id>, n: nat)
    requires n <= |ids| && AllRefundable(rows, ids)
    ensures forall x :: x in Failing(ids[..n]) ==> x.0 in rows
    ensures Refunding(HandleAll(Store(rows, []), rows, Failing(ids[..n]), 0), ids, n)
  {
    if n == 0 {
      assert ids[..0] == [];
    } else {
      var id, before := ids[n - 1], Failing(ids[..n - 1]);
      assert ids[..n][..n - 1] == ids[..n - 1] && id in ids;
      EveryItemRefunds(rows, ids, n - 1);
      HandleSnoc(Store(rows, []), rows, before, (id, FAILING), 0);
      RefundingStep(HandleAll(Store(rows, []), rows, before, 0), ids, n - 1);
    }
  }

  lemma SubmittedReady(ids: seq<Id>)
    ensures AllRefundable(Submitted(ids), ids) && Ready(Store(Submitted(ids), []), Submitted(ids))
  {
  }

  lemma SameIdTwice(ledger: seq<(Id, int)>, i: nat, j: nat)
    requires i < j < |ledger| && ledger[i].0 == ledger[j].0
    ensures !Once(ledger)
  {
  }

  lemma RepeatedIdRefundsTwice(ids: seq<Id>, i: nat, j: nat)
    requires i < j < |ids| && ids[i] == ids[j]
    ensures (forall x :: x in Failing(ids) ==> x.0 in Submitted(ids)) && Ready(Store(Submitted(ids), []), Submitted(ids))
    ensures !Once(HandleAll(Store(Submitted(ids), []), Submitted(ids), Failing(ids), 0).0.ledger)
  {
    SubmittedReady(ids);
    assert ids[..|ids|] == ids;
    EveryItemRefunds(Submitted(ids), ids, |ids|);
    SameIdTwice(HandleAll(Store(Submitted(ids), []), Submitted(ids), Failing(ids), 0).0.ledger, i, j);
  }

  /** Every response about these ids, with honest reports, refunds each task at most once. */
  ghost predicate ResponseRefundsOnce(ids: seq<Id>) {
    forall s: Store, tasks: map<Id, Row>, items: seq<(Id, Report)>, now: int ::
      IdsOf(items) == ids && Ready(s, tasks) && HonestItems(items) && (forall x :: x in items ==> x.0 in tasks) ==>
        Once(HandleAll(s, tasks, items, now).0.ledger)
  }

  /** One response is safe exactly when it names no task twice. */
  lemma ResponseSafeExactlyForDistinctIds(ids: seq<Id>)
    ensures ResponseRefundsOnce(ids) <==> Distinct(ids)
  {
    if Distinct(ids) {
      forall s: Store, tasks: map<Id, Row>, items: seq<(Id, Report)>, now: int |
        IdsOf(items) == ids && Ready(s, tasks) && HonestItems(items) && (forall x :: x in items ==> x.0 in tasks)
        ensures Once(HandleAll(s, tasks, items, now).0.ledger)
      {
        forall i, j | 0 <= i < j < |items| ensures items[i].0 != items[j].0 { assert ids[i] != ids[j]; }
        DistinctResponse(s, tasks, items, now);
      }
    } else {
      var i, j :| 0 <= i < j < |ids| && ids[i] == ids[j];
      FailingIds(ids);
      RepeatedIdRefundsTwice(ids, i, j);
    }
  }

  class Database {
    var rows: map<Id, Row>
    var ledger: seq<(Id, int)>

    constructor (rows: map<Id, Row>)
      ensures this.rows == rows && ledger == []
    {
      this.rows, ledger := rows, [];
    }

    function Contents(): (s: Store)
      reads this
    {
      Store(rows, ledger)
    }

    /** UpdateWithStatus: a conditional update of the whole row. */
    method UpdateWithStatus(id: Id, task: Row, from: string) returns (won: bool)
      modifies this`rows
      ensures won == Wins(old(Contents()), id, from)
      ensures rows == if won then old(rows)[id := task] else old(rows)
    {
      won := id in rows && rows[id].status == from;
      if won { rows := rows[id := task]; }
    }

    /** The body of the loop over response items. */
    method HandleItem(id: Id, copy: Row, item: Report, now: int) returns (task: Row)
      modifies this
      ensures (Contents(), task) == Handle(old(Contents()), id, copy, item, now)
    {
      task := copy;
      var report := item;
      if now - task.details.submitTime > TIMEOUT_MILLIS && task.progress != COMPLETE {
        report := report.(reason := TIMEOUT_REASON, status := FAILURE);
      }
      if !NeedUpdate(task, report) { return; }
      var before := task.status;
      task := Row(1, report.status, report.progress, report.reason, report.details, task.quota);
      var shouldReturn := false;
      if (task.progress != COMPLETE && report.reason != "") || (task.progress == COMPLETE && task.status == FAILURE) {
        task := task.(progress := COMPLETE);
        shouldReturn := task.quota != 0;
      }
      var won := UpdateWithStatus(id, task, before);
      if won && shouldReturn { ledger := ledger + [(id, task.quota)]; }
    }

    /** The loop over the items of one response. */
    method HandleResponse(copies: map<Id, Row>, items: seq<(Id, Report)>, now: int) returns (tasks: map<Id, Row>)
      requires forall x :: x in items ==> x.0 in copies
      modifies this
      ensures (Contents(), tasks) == HandleAll(old(Contents()), copies, items, now)
    {
      tasks := copies;
      for k := 0 to |items|
        invariant forall x :: x in items[..k] ==> x.0 in copies
        invariant (Contents(), tasks) == HandleAll(old(Contents()), copies, items[..k], now)
      {
        assert items[..k + 1][..k] == items[..k] && items[k] in items;
        var task := HandleItem(items[k].0, tasks[items[k].0], items[k].1, now);
        tasks := tasks[items[k].0 := task];
      }
      assert items[..|items|] == items;
    }
  }
}
