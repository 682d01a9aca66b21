/**
  Poll-time billing of video tasks (updateVideoSingleTask of controller/task_video.go): a poll may move the status, settle
  the charge by tokens on success and refund it on failure, and each of its writes can fail on its own.
 */
module VideoBilling {
  import opened Base

  const SUBMITTED := "SUBMITTED"
  const QUEUED := "QUEUED"
  const IN_PROGRESS := "IN_PROGRESS"
  const SUCCESS := "SUCCESS"
  const FAILURE := "FAILURE"
  const COMPLETE := "100%"

  /** The stored task. */
  datatype Task = Task(status: string, progress: string, quota: int)

  /** What the settlement on success looks at. */
  datatype Usage = Usage(totalTokens: int, modelName: string, hasRatio: bool, modelRatio: real,
                         group: string, groupRatio: real, ownGroupRatio: Option<real>)

  /** One poll: what upstream reports, and whether the three writes that may follow succeed. */
  datatype Poll = Poll(status: string, progress: string, usage: Usage,
                       settled: bool, saved: bool, repaid: bool)

  /** The stored task, what the user was billed for it, and the failure refunds paid for it. */
  datatype World = World(task: Task, billed: int, refunds: seq<int>)

  /** The quota by tokens, when the settlement conditions hold. */
  function ActualQuota(u: Usage): (q: Option<int>) {
    if u.totalTokens > 0 && u.modelName != "" && u.hasRatio && u.modelRatio > 0.0 && u.group != "" then
      var ratio := if u.ownGroupRatio.Some? then u.ownGroupRatio.value else u.groupRatio;
      Some(Truncate(Times(Times(u.totalTokens as real, u.modelRatio), ratio)))
    else None
  }

  /** An empty status counts as a failure. */
  function Reported(p: Poll): (status: string) {
    if p.status == "" then FAILURE else p.status
  }

  predicate Known(status: string) {
    status == SUBMITTED || status == QUEUED || status == IN_PROGRESS || status == SUCCESS || status == FAILURE
  }

  function Progress(p: Poll): (progress: string) {
    var status := Reported(p);
    if status == FAILURE then COMPLETE
    else if p.progress != "" then p.progress
    else if status == SUBMITTED then "10%" else if status == QUEUED then "20%"
    else if status == IN_PROGRESS then "30%" else COMPLETE
  }

  /** The quota after settlement: changed only when money was moved for it. */
  function SettledQuota(quota: int, p: Poll): (q: int) {
    if Reported(p) == SUCCESS && ActualQuota(p.usage).Some? && p.settled then ActualQuota(p.usage).value else quota
  }

  predicate RefundDue(task: Task, p: Poll) {
    Reported(p) == FAILURE && task.quota != 0 && task.status != FAILURE
  }

  /** A poll that works on a copy of the task: statuses and quotas come from the copy, and saving writes all of it. */
  function StepFrom(w: World, copy: Task, p: Poll): (r: World) {
    if !Known(Reported(p)) then w
    else
      var quota := SettledQuota(copy.quota, p);
      World(if p.saved then Task(Reported(p), Progress(p), quota) else w.task,
            w.billed + (quota - copy.quota),
            if p.saved && RefundDue(copy, p) && p.repaid then w.refunds + [copy.quota] else w.refunds)
  }

  /** A poll of a task that was read just before. */
  function Step(w: World, p: Poll): (r: World) {
    StepFrom(w, w.task, p)
  }

  function Run(w: World, polls: seq<Poll>): (r: World) {
    if polls == [] then w else Step(Run(w, polls[..|polls| - 1]), polls[|polls| - 1])
  }

  function Total(s: seq<int>): (t: int) {
    if s == [] then 0 else Total(s[..|s| - 1]) + s[|s| - 1]
  }

  function NetCharge(w: World): (n: int) {
    w.billed - Total(w.refunds)
  }

  lemma TotalSnoc(s: seq<int>, x: int)
    ensures Total(s + [x]) == Total(s) + x
  {
    assert (s + [x])[..|s|] == s;
  }

  /** A task that was just submitted and charged. */
  predicate Submitted(w: World) {
    w.task.status != FAILURE && w.billed == w.task.quota && w.refunds == []
  }

  // ---------------------------------------------------------------- the charge

  /** The user owes the stored quota, and nothing once the task failed. */
  predicate Balanced(w: World) {
    NetCharge(w) == if w.task.status == FAILURE then 0 else w.task.quota
  }

  predicate MovesMoney(task: Task, p: Poll) {
    SettledQuota(task.quota, p) != task.quota
  }

  /** What has to hold of a poll: settled money is recorded, a charged task does not leave FAILURE, refunds get paid. */
  predicate Sound(task: Task, p: Poll) {
    || !Known(Reported(p))
    || (if !p.saved then !MovesMoney(task, p)
        else if Reported(p) == FAILURE then RefundDue(task, p) ==> p.repaid
        else task.status == FAILURE ==> task.quota == 0)
  }

  /** From a balanced state, a poll leaves the books balanced exactly when it is sound. */
  lemma PollKeepsBalance(w: World, p: Poll)
    requires Balanced(w)
    ensures Balanced(Step(w, p)) <==> Sound(w.task, p)
  {
    TotalSnoc(w.refunds, w.task.quota);
  }

  /** Every poll is sound for the task it meets. */
  predicate AllSound(w: World, polls: seq<Poll>) {
    polls == [] ||
    var before, last := polls[..|polls| - 1], polls[|polls| - 1];
    AllSound(w, before) && Sound(Run(w, before).task, last)
  }

  /** The books are balanced after every poll. */
  predicate StaysBalanced(w: World, polls: seq<Poll>) {
    Balanced(Run(w, polls)) && (polls == [] || StaysBalanced(w, polls[..|polls| - 1]))
  }

  /** Over a run the books stay balanced exactly when every poll is sound. */
  lemma {:induction false} RunBalanced(w: World, polls: seq<Poll>)
    requires Submitted(w)
    ensures StaysBalanced(w, polls) <==> AllSound(w, polls)
  {
    if polls != [] {
      var before, last := polls[..|polls| - 1], polls[|polls| - 1];
      RunBalanced(w, before);
      if StaysBalanced(w, before) { PollKeepsBalance(Run(w, before), last); }
    }
  }

  // ---------------------------------------------------------------- refunds

  /** A saved poll that takes a failed task out of FAILURE. */
  predicate Revives(task: Task, p: Poll) {
    task.status == FAILURE && p.saved && Known(Reported(p)) && Reported(p) != FAILURE
  }

  predicate NeverRevived(w: World, polls: seq<Poll>) {
    polls == [] ||
    var before, last := polls[..|polls| - 1], polls[|polls| - 1];
    NeverRevived(w, before) && !Revives(Run(w, before).task, last)
  }

  /** While the task has not failed nothing was refunded; afterwards at most one refund, of the quota it had. */
  predicate OneRefund(w: World) {
    w.refunds == [] || (w.task.status == FAILURE && w.refunds == [w.task.quota])
  }

  lemma StepOneRefund(w: World, p: Poll)
    requires OneRefund(w) && !Revives(w.task, p)
    ensures OneRefund(Step(w, p))
  {
  }

  /** If no failed task is revived it is refunded at most once, by its quota, whatever writes fail. */
  lemma {:induction false} RefundedAtMostOnce(w: World, polls: seq<Poll>)
    requires Submitted(w) && NeverRevived(w, polls)
    ensures OneRefund(Run(w, polls))
  {
    if polls != [] {
      var init := polls[..|polls| - 1];
      RefundedAtMostOnce(w, init);
      StepOneRefund(Run(w, init), polls[|polls| - 1]);
    }
  }

  /** Every write succeeds. */
  predicate Persists(p: Poll) {
    p.settled && p.saved && p.repaid
  }

  ghost predicate AllPersist(polls: seq<Poll>) {
    forall p :: p in polls ==> Persists(p)
  }

  lemma PersistentStep(w: World, p: Poll)
    requires Balanced(w) && w.billed == w.task.quota && Persists(p) && !Revives(w.task, p)
    ensures Balanced(Step(w, p)) && Step(w, p).billed == Step(w, p).task.quota
  {
    PollKeepsBalance(w, p);
  }

  lemma {:induction false} PersistentRun(w: World, polls: seq<Poll>)
    requires Submitted(w) && AllPersist(polls) && NeverRevived(w, polls)
    ensures Balanced(Run(w, polls))
    ensures Run(w, polls).billed == Run(w, polls).task.quota
  {
    if polls != [] {
      var init, p := polls[..|polls| - 1], polls[|polls| - 1];
      assert p in polls && forall q :: q in init ==> q in polls;
      PersistentRun(w, init);
      PersistentStep(Run(w, init), p);
    }
  }

  /** Settlement by tokens never asks for a negative quota when the group ratios are not negative. */
  lemma ActualQuotaNatural(u: Usage)
    requires u.groupRatio >= 0.0 && (u.ownGroupRatio.Some? ==> u.ownGroupRatio.value >= 0.0)
    ensures ActualQuota(u).Some? ==> ActualQuota(u).value >= 0
  {
    if ActualQuota(u).Some? {
      var ratio := if u.ownGroupRatio.Some? then u.ownGroupRatio.value else u.groupRatio;
      NonNegativeProduct(u.totalTokens as real, u.modelRatio);
      NonNegativeProduct(Times(u.totalTokens as real, u.modelRatio), ratio);
    }
  }

  lemma NonNegativeProduct(x: real, y: real)
    requires x >= 0.0 && y >= 0.0
    ensures Times(x, y) >= 0.0
  {
  }

  predicate NonNegativeRatios(p: Poll) {
    p.usage.groupRatio >= 0.0 && (p.usage.ownGroupRatio.Some? ==> p.usage.ownGroupRatio.value >= 0.0)
  }

  lemma {:induction false} QuotaStaysNatural(w: World, polls: seq<Poll>)
    requires w.task.quota >= 0 && forall p :: p in polls ==> NonNegativeRatios(p)
    ensures Run(w, polls).task.quota >= 0
  {
    if polls != [] {
      var init, p := polls[..|polls| - 1], polls[|polls| - 1];
      assert p in polls && forall q :: q in init ==> q in polls;
      QuotaStaysNatural(w, init);
      ActualQuotaNatural(p.usage);
    }
  }

  /**
    When every write succeeds and no failed task is revived: until failure the stored quota is the user's net charge,
    failure refunds exactly that charge once, and the user never gets back more than was charged.
   */
  lemma VideoTaskIsBilledOnce(w: World, polls: seq<Poll>)
    requires Submitted(w) && AllPersist(polls) && NeverRevived(w, polls)
    requires w.task.quota >= 0 && forall p :: p in polls ==> NonNegativeRatios(p)
    ensures var r := Run(w, polls);
            && (r.task.status != FAILURE ==> NetCharge(r) == r.task.quota && r.refunds == [])
            && (r.task.status == FAILURE && r.task.quota != 0 ==> r.refunds == [r.billed] && NetCharge(r) == 0)
            && |r.refunds| <= 1
            && 0 <= Total(r.refunds) <= r.billed
  {
    var r := Run(w, polls);
    RefundedAtMostOnce(w, polls);
    PersistentRun(w, polls);
    QuotaStaysNatural(w, polls);
    TotalSnoc([], r.task.quota);
    assert [] + [r.task.quota] == [r.task.quota];
  }

  /** Whether a success is settled by tokens, and by which quota, in terms of what the poll found. */
  predicate ByTokens(u: Usage, quota: int) {
    && u.totalTokens >= 1 && u.modelName != "" && u.hasRatio && u.modelRatio > 0.0 && u.group != ""
    && var ratio := match u.ownGroupRatio case Some(own) => own case None => u.groupRatio;
    var exact := u.totalTokens as real * u.modelRatio * ratio;
    if exact >= 0.0 then quota as real <= exact < quota as real + 1.0 else quota as real - 1.0 < exact <= quota as real
  }

  lemma SettlementMeans(u: Usage, quota: int)
    ensures ActualQuota(u) == Some(quota) <==> ByTokens(u, quota)
  {
    var ratio := if u.ownGroupRatio.Some? then u.ownGroupRatio.value else u.groupRatio;
    var exact := Times(Times(u.totalTokens as real, u.modelRatio), ratio);
    assert exact == u.totalTokens as real * u.modelRatio * ratio;
    TruncateMeans(exact, quota);
  }

  lemma TruncateMeans(x: real, n: int)
    ensures Truncate(x) == n <==>
            if x >= 0.0 then n as real <= x < n as real + 1.0 else n as real - 1.0 < x <= n as real
  {
  }

  /**
    A poll whose writes succeed stores the reported status with its progress; a success is charged what its tokens cost,
    where they are known, and any other report leaves the charge alone.
   */
  lemma PollStores(w: World, p: Poll)
    requires Persists(p) && Known(Reported(p)) && w.billed == w.task.quota
    ensures var r, status := Step(w, p), if p.status == "" then "FAILURE" else p.status;
            && r.task.status == status && r.billed == r.task.quota
            && r.task.progress == (if status == "FAILURE" || (p.progress == "" && status == "SUCCESS") then "100%"
                                   else if p.progress != "" then p.progress
                                   else if status == "SUBMITTED" then "10%"
                                   else if status == "QUEUED" then "20%" else "30%")
            && (forall quota :: status == "SUCCESS" && ByTokens(p.usage, quota) ==> r.task.quota == quota)
            && (status != "SUCCESS" || (forall quota :: !ByTokens(p.usage, quota)) ==> r.task.quota == w.task.quota)
  {
    forall quota ensures ActualQuota(p.usage) == Some(quota) <==> ByTokens(p.usage, quota) {
      SettlementMeans(p.usage, quota);
    }
  }

  // ---------------------------------------------------------------- what breaks it

  /** A failed task that is reported running again and fails again is refunded twice. */
  lemma RevivedTaskIsRefundedTwice(w: World, down: Poll, up: Poll)
    requires Submitted(w) && w.task.quota != 0
    requires Persists(down) && Reported(down) == FAILURE && Persists(up) && Reported(up) == IN_PROGRESS
    ensures Run(w, [down, up, down]).refunds == [w.task.quota, w.task.quota]
    ensures NetCharge(Run(w, [down, up, down])) == -w.task.quota
  {
    var q := w.task.quota;
    RunThree(w, down, up, down);
    StepFails(w, down);
    StepRuns(Step(w, down), up);
    StepFails(Step(Step(w, down), up), down);
    assert [] + [q] == [q] && [q] + [q] == [q, q];
    TotalOf(q);
  }

  lemma StepFails(w: World, p: Poll)
    requires Persists(p) && Reported(p) == FAILURE && w.task.status != FAILURE && w.task.quota != 0
    ensures Step(w, p) == World(Task(FAILURE, COMPLETE, w.task.quota), w.billed, w.refunds + [w.task.quota])
  {
  }

  lemma StepRuns(w: World, p: Poll)
    requires Persists(p) && Reported(p) == IN_PROGRESS
    ensures Step(w, p) == World(Task(IN_PROGRESS, Progress(p), w.task.quota), w.billed, w.refunds)
  {
  }

  lemma TotalOf(q: int)
    ensures Total([q] + [q]) == q + q
  {
    TotalSnoc([q], q);
    TotalSnoc([], q);
    assert [] + [q] == [q];
  }

  lemma RunThree(w: World, a: Poll, b: Poll, c: Poll)
    ensures Run(w, [a, b, c]) == Step(Step(Step(w, a), b), c)
  {
    assert [a, b, c][..2] == [a, b] && [a, b][..1] == [a] && [a][..0] == [];
    assert Run(w, [a]) == Step(w, a) && Run(w, [a, b]) == Step(Run(w, [a]), b);
  }

  // ---------------------------------------------------------------- which reports can refund twice

  predicate Fails(status: string) {
    status == "" || status == FAILURE
  }

  predicate Lives(status: string) {
    Known(status) && status != FAILURE
  }

  /** A failure report, later a report of another known status, and later a failure report again. */
  predicate Revival(statuses: seq<string>, i: nat, j: nat, k: nat) {
    i < j < k < |statuses| && Fails(statuses[i]) && Lives(statuses[j]) && Fails(statuses[k])
  }

  ghost predicate HasRevival(statuses: seq<string>) {
    exists i, j, k :: Revival(statuses, i, j, k)
  }

  ghost predicate Reports(polls: seq<Poll>, statuses: seq<string>) {
    |polls| == |statuses| && forall n :: 0 <= n < |polls| ==> polls[n].status == statuses[n]
  }

  /** Whatever the charge and whichever writes fail, these reports refund the task at most once. */
  ghost predicate RefundsOnce(statuses: seq<string>) {
    forall w: World, polls: seq<Poll> :: Submitted(w) && Reports(polls, statuses) ==> |Run(w, polls).refunds| <= 1
  }

  /** The first n polls. */
  function RunTo(w: World, polls: seq<Poll>, n: nat): (r: World)
    requires n <= |polls|
  {
    if n == 0 then w else Step(RunTo(w, polls, n - 1), polls[n - 1])
  }

  lemma {:induction false} RunToIs(w: World, polls: seq<Poll>, n: nat)
    requires n <= |polls|
    ensures RunTo(w, polls, n) == Run(w, polls[..n]) && (n == |polls| ==> RunTo(w, polls, n) == Run(w, polls))
  {
    if n > 0 {
      RunToIs(w, polls, n - 1);
      assert polls[..n][..n - 1] == polls[..n - 1];
    }
    assert polls[..|polls|] == polls;
  }

  /** After n reports: no refund, or one, for a failure that still stands or that another report has replaced. */
  ghost predicate OneFailure(w: World, statuses: seq<string>, n: nat) {
    w.refunds == [] || (|w.refunds| == 1 && exists i: nat :: FailedAt(w, statuses, i, n))
  }

  /** Report i was a failure, and it still stands or another report has replaced it. */
  ghost predicate FailedAt(w: World, statuses: seq<string>, i: nat, n: nat) {
    && i < n <= |statuses| && Fails(statuses[i])
    && (w.task.status == FAILURE || exists j :: i < j < n && Lives(statuses[j]))
  }

  lemma OneFailureStep(w: World, p: Poll, statuses: seq<string>, n: nat)
    requires n < |statuses| && p.status == statuses[n] && OneFailure(w, statuses, n) && !HasRevival(statuses)
    ensures OneFailure(Step(w, p), statuses, n + 1)
  {
    var r := Step(w, p);
    if w.refunds == [] {
      if r.refunds != [] { assert FailedAt(r, statuses, n, n + 1); }
    } else {
      var i: nat :| FailedAt(w, statuses, i, n);
      assert FailedAt(r, statuses, i, n + 1) by {
        if r.task.status != FAILURE && w.task.status == FAILURE { assert Lives(statuses[n]); }
      }
      if w.task.status != FAILURE {
        var j :| i < j < n && Lives(statuses[j]);
        assert !Revival(statuses, i, j, n);
      }
    }
  }

  lemma {:induction false} OneFailureRun(w: World, polls: seq<Poll>, statuses: seq<string>, n: nat)
    requires Submitted(w) && Reports(polls, statuses) && !HasRevival(statuses) && n <= |polls|
    ensures OneFailure(RunTo(w, polls, n), statuses, n)
  {
    if n > 0 {
      OneFailureRun(w, polls, statuses, n - 1);
      OneFailureStep(RunTo(w, polls, n - 1), polls[n - 1], statuses, n - 1);
    }
  }

  /** Only the three polls of a revival are saved, nothing is settled, and refunds are paid. */
  predicate RevivingPoll(p: Poll, status: string, i: nat, j: nat, k: nat, n: nat) {
    p.status == status && !p.settled && p.repaid && (p.saved <==> n == i || n == j || n == k)
  }

  ghost predicate RevivingPolls(polls: seq<Poll>, statuses: seq<string>, i: nat, j: nat, k: nat) {
    && |polls| == |statuses|
    && forall n :: 0 <= n < |polls| ==> RevivingPoll(polls[n], statuses[n], i, j, k, n)
  }

  function Revive(statuses: seq<string>, i: nat, j: nat, k: nat): (polls: seq<Poll>)
    ensures RevivingPolls(polls, statuses, i, j, k)
  {
    seq(|statuses|, n requires 0 <= n < |statuses| =>
      Poll(statuses[n], "", Usage(0, "", false, 0.0, "", 0.0, None), false, n == i || n == j || n == k, true))
  }

  const CHARGED := World(Task("NOT_START", "0%", 1), 1, [])

  lemma UnsavedStep(w: World, p: Poll)
    requires !p.saved && !p.settled
    ensures Step(w, p) == w
  {
  }

  lemma SavedFailure(w: World, p: Poll)
    requires p.saved && p.repaid && !p.settled && Fails(p.status) && w.task.status != FAILURE && w.task.quota != 0
    ensures Step(w, p) == World(Task(FAILURE, COMPLETE, w.task.quota), w.billed, w.refunds + [w.task.quota])
  {
  }

  lemma SavedLife(w: World, p: Poll)
    requires p.saved && !p.settled && Lives(p.status)
    ensures Step(w, p) == World(Task(p.status, Progress(p), w.task.quota), w.billed, w.refunds)
  {
  }

  /** The books after n reports of such a run. */
  predicate Reviving(w: World, i: nat, j: nat, k: nat, n: nat) {
    && w.task.quota == 1
    && (w.task.status == FAILURE <==> i < n <= j || k < n)
    && |w.refunds| == if n <= i then 0 else if n <= k then 1 else 2
  }

  lemma RevivingStep(w: World, p: Poll, status: string, i: nat, j: nat, k: nat, n: nat)
    requires i < j < k && Reviving(w, i, j, k, n) && RevivingPoll(p, status, i, j, k, n)
    requires (n == i || n == k ==> Fails(status)) && (n == j ==> Lives(status))
    ensures Reviving(Step(w, p), i, j, k, n + 1)
  {
    if n == i || n == k { SavedFailure(w, p); } else if n == j { SavedLife(w, p); } else { UnsavedStep(w, p); }
  }

  lemma {:induction false} RevivalRun(polls: seq<Poll>, statuses: seq<string>, i: nat, j: nat, k: nat, n: nat)
    requires Revival(statuses, i, j, k) && RevivingPolls(polls, statuses, i, j, k) && n <= |statuses|
    ensures Reviving(RunTo(CHARGED, polls, n), i, j, k, n)
  {
    if n > 0 {
      RevivalRun(polls, statuses, i, j, k, n - 1);
      assert RevivingPoll(polls[n - 1], statuses[n - 1], i, j, k, n - 1);
      RevivingStep(RunTo(CHARGED, polls, n - 1), polls[n - 1], statuses[n - 1], i, j, k, n - 1);
    }
  }

  /** Reports refund a task at most once, whatever happens, exactly when they contain no revival. */
  lemma OnceExactlyWithoutRevival(statuses: seq<string>)
    ensures RefundsOnce(statuses) <==> !HasRevival(statuses)
  {
    if HasRevival(statuses) {
      var i, j, k :| Revival(statuses, i, j, k);
      var polls := Revive(statuses, i, j, k);
      RevivalRun(polls, statuses, i, j, k, |statuses|);
      RunToIs(CHARGED, polls, |polls|);
      assert Submitted(CHARGED) && Reports(polls, statuses);
    } else {
      forall w: World, polls: seq<Poll> | Submitted(w) && Reports(polls, statuses)
        ensures |Run(w, polls).refunds| <= 1
      {
        OneFailureRun(w, polls, statuses, |polls|);
        RunToIs(w, polls, |polls|);
      }
    }
  }

  /** The bulk update for a channel that cannot be loaded fails the task without a refund. */
  function BulkFail(w: World): (r: World) {
    w.(task := w.task.(status := FAILURE, progress := COMPLETE))
  }

  /** It keeps the books balanced exactly for tasks that were free of charge or had failed already. */
  lemma BulkFailKeepsBalance(w: World)
    requires Balanced(w)
    ensures Balanced(BulkFail(w)) <==> w.task.quota == 0 || w.task.status == FAILURE
  {
  }

  // ---------------------------------------------------------------- the poll as it is executed

  class VideoTask {
    var stored: Task
    var billed: int
    var refunds: seq<int>

    constructor (task: Task)
      ensures stored == task && billed == task.quota && refunds == []
    {
      stored, billed, refunds := task, task.quota, [];
    }

    function State(): (w: World)
      reads this
    {
      World(stored, billed, refunds)
    }

    /** updateVideoSingleTask on a copy of the task, from the parsed result on; an unknown status is an error. */
    method UpdateVideoSingleTask(copy: Task, p: Poll) returns (ok: bool)
      modifies this
      ensures State() == StepFrom(old(State()), copy, p)
      ensures ok == Known(Reported(p))
    {
      var status := if p.status == "" then FAILURE else p.status;
      var shouldRefund, quota, preStatus, progress := false, copy.quota, copy.status, p.progress;
      var task := copy.(status := status);
      if status == SUBMITTED {
        task := task.(progress := "10%");
      } else if status == QUEUED {
        task := task.(progress := "20%");
      } else if status == IN_PROGRESS {
        task := task.(progress := "30%");
      } else if status == SUCCESS {
        task := task.(progress := COMPLETE);
        task := Settle(task, p);
      } else if status == FAILURE {
        task := task.(progress := COMPLETE);
        progress := COMPLETE;
        shouldRefund := quota != 0 && preStatus != FAILURE;
      } else {
        return false;
      }
      if progress != "" { task := task.(progress := progress); }
      if p.saved { stored := task; } else { shouldRefund := false; }
      if shouldRefund && p.repaid { refunds := refunds + [quota]; }
      ok := true;
    }

    /** The settlement on success: charge or give back the difference, and record the new quota if that worked. */
    method Settle(task: Task, p: Poll) returns (r: Task)
      requires Reported(p) == SUCCESS
      modifies this`billed
      ensures r == task.(quota := SettledQuota(task.quota, p))
      ensures billed == old(billed) + (r.quota - task.quota)
    {
      r := task;
      var actual := ActualQuota(p.usage);
      if actual.Some? {
        var delta := actual.value - task.quota;
        if delta > 0 {
          if p.settled {
            billed := billed + delta;
            r := r.(quota := actual.value);
          }
        } else if delta < 0 {
          if p.settled {
            billed := billed - (-delta);
            r := r.(quota := actual.value);
          }
        }
      }
    }
  }
}
