/** The bounded worker pool of worker/pool.go, one event per channel operation. */
module WorkerPool {
  import opened Options

  type Job = nat  // the number of the Submit call that brought it

  datatype Worker = Idle | Running(job: Job) | Exited

  /** A Submit call: blocked on the channel, accepted, or panicked on the closed channel. */
  datatype Submission = Blocked | Accepted | Panicked

  datatype StopPhase = NotCalled | Waiting | Returned

  /** The last three fields are histories: the jobs sent on the channel, taken from it
      and finished, in that order. */
  datatype Pool = Pool(
    workers: seq<Worker>,
    queue: seq<Job>,
    closed: bool,
    stop: StopPhase,
    calls: seq<Submission>,
    sent: seq<Job>,
    started: seq<Job>,
    finished: seq<Job>)

  /** NewWorkerPool and Start: at least one worker. */
  function NewPool(workerCount: int): (p: Pool)
    ensures |p.workers| == if workerCount >= 1 then workerCount else 1
  {
    var n := if workerCount <= 0 then 1 else workerCount;
    Pool(seq(n, _ => Idle), [], false, NotCalled, [], [], [], [])
  }

  function Capacity(p: Pool): nat {
    4 * |p.workers|
  }

  datatype Event =
    | Submit          // a call of Submit, up to the send of line 63
    | Send(j: Job)    // line 63, there is room
    | SendClosed(j: Job)  // line 63, the channel is closed
    | Take(w: nat)    // line 52, a job
    | Finish(w: nat)  // line 53
    | Exit(w: nat)    // line 52, closed and empty
    | Close           // line 70
    | Return          // line 71

  predicate Enabled(p: Pool, e: Event) {
    match e
    case Submit => true
    case Send(j) => j < |p.calls| && p.calls[j].Blocked? && !p.closed && |p.queue| < Capacity(p)
    case SendClosed(j) => j < |p.calls| && p.calls[j].Blocked? && p.closed
    case Take(w) => w < |p.workers| && p.workers[w].Idle? && p.queue != []
    case Finish(w) => w < |p.workers| && p.workers[w].Running?
    case Exit(w) => w < |p.workers| && p.workers[w].Idle? && p.queue == [] && p.closed
    case Close => p.stop.NotCalled?
    case Return => p.stop.Waiting? && forall w :: 0 <= w < |p.workers| ==> p.workers[w].Exited?
  }

  function Step(p: Pool, e: Event): Pool
    requires Enabled(p, e)
  {
    match e
    case Submit => p.(calls := p.calls + [Blocked])
    case Send(j) => p.(queue := p.queue + [j], calls := p.calls[j := Accepted], sent := p.sent + [j])
    case SendClosed(j) => p.(calls := p.calls[j := Panicked])
    case Take(w) =>
      p.(workers := p.workers[w := Running(p.queue[0])], queue := p.queue[1..], started := p.started + [p.queue[0]])
    case Finish(w) => p.(workers := p.workers[w := Idle], finished := p.finished + [p.workers[w].job])
    case Exit(w) => p.(workers := p.workers[w := Exited])
    case Close => p.(closed := true, stop := Waiting)
    case Return => p.(stop := Returned)
  }

  ghost predicate NobodyWaits(p: Pool) {
    forall j :: 0 <= j < |p.calls| ==> !p.calls[j].Blocked?
  }

  ghost predicate NobodyPanicked(p: Pool) {
    forall j :: 0 <= j < |p.calls| ==> !p.calls[j].Panicked?
  }

  // ---- The invariant ----

  function Runs(w: Worker, j: Job): nat {
    if w == Running(j) then 1 else 0
  }

  /** How many workers are running job `j`. */
  function InProgress(workers: seq<Worker>, j: Job): nat {
    if workers == [] then 0 else Runs(workers[0], j) + InProgress(workers[1..], j)
  }

  lemma {:induction false} InProgressUpdate(workers: seq<Worker>, i: nat, w: Worker, j: Job)
    requires i < |workers|
    ensures InProgress(workers[i := w], j) == InProgress(workers, j) - Runs(workers[i], j) + Runs(w, j)
  {
    if i > 0 {
      assert workers[i := w][1..] == workers[1..][i - 1 := w];
      InProgressUpdate(workers[1..], i - 1, w, j);
    } else {
      assert workers[0 := w][1..] == workers[1..];
    }
  }

  lemma {:induction false} InProgressNone(workers: seq<Worker>, j: Job)
    requires forall w :: 0 <= w < |workers| ==> !workers[w].Running?
    ensures InProgress(workers, j) == 0
  {
    if workers != [] {
      InProgressNone(workers[1..], j);
    }
  }

  predicate WasAccepted(p: Pool, j: Job) {
    j < |p.calls| && p.calls[j].Accepted?
  }

  /** Jobs are sent once each, and exactly those of the accepted calls. */
  ghost predicate SentInv(p: Pool) {
    && (forall i, j :: 0 <= i < j < |p.sent| ==> p.sent[i] != p.sent[j])
    && (forall j: Job :: j in p.sent <==> WasAccepted(p, j))
  }

  ghost predicate Inv(p: Pool) {
    && |p.workers| >= 1 && |p.queue| <= Capacity(p)
    && p.started + p.queue == p.sent
    && (forall j: Job :: multiset(p.started)[j] == multiset(p.finished)[j] + InProgress(p.workers, j))
    && SentInv(p)
    && (p.closed <==> !p.stop.NotCalled?)
    && (forall w :: 0 <= w < |p.workers| && p.workers[w].Exited? ==> p.closed && p.queue == [])
    && (p.stop.Returned? ==> forall w :: 0 <= w < |p.workers| ==> p.workers[w].Exited?)
  }

  lemma NewPoolInv(workerCount: int)
    ensures Inv(NewPool(workerCount))
  {
    forall j: Job
      ensures InProgress(NewPool(workerCount).workers, j) == 0
    {
      InProgressNone(NewPool(workerCount).workers, j);
    }
  }

  lemma SendKeepsInv(p: Pool, j: Job)
    requires Inv(p) && Enabled(p, Send(j))
    ensures Inv(Step(p, Send(j)))
  {
    assert !WasAccepted(p, j) && j !in p.sent;
    assert p.started + (p.queue + [j]) == p.sent + [j];
  }

  lemma TakeKeepsInv(p: Pool, w: nat)
    requires Inv(p) && Enabled(p, Take(w))
    ensures Inv(Step(p, Take(w)))
  {
    var p' := Step(p, Take(w));
    assert p.queue == [p.queue[0]] + p.queue[1..];
    assert p'.started + p'.queue == p.started + p.queue;
    forall j: Job
      ensures multiset(p'.started)[j] == multiset(p'.finished)[j] + InProgress(p'.workers, j)
    {
      InProgressUpdate(p.workers, w, p'.workers[w], j);
    }
  }

  lemma WorkerStepKeepsInv(p: Pool, e: Event)
    requires Inv(p) && Enabled(p, e) && (e.Finish? || e.Exit?)
    ensures Inv(Step(p, e))
  {
    var p' := Step(p, e);
    forall j: Job
      ensures multiset(p'.started)[j] == multiset(p'.finished)[j] + InProgress(p'.workers, j)
    {
      InProgressUpdate(p.workers, e.w, p'.workers[e.w], j);
    }
  }

  lemma StepKeepsInv(p: Pool, e: Event)
    requires Inv(p) && Enabled(p, e)
    ensures Inv(Step(p, e))
  {
    match e
    case Take(w) => TakeKeepsInv(p, w);
    case Finish(_) => WorkerStepKeepsInv(p, e);
    case Exit(_) => WorkerStepKeepsInv(p, e);
    case Send(j) => SendKeepsInv(p, j);
    case _ =>
  }

  // ---- Conservation ----

  lemma {:induction false} OnceInMultiset(js: seq<Job>, j: Job)
    requires forall i, k :: 0 <= i < k < |js| ==> js[i] != js[k]
    ensures multiset(js)[j] == if j in js then 1 else 0
  {
    if js != [] {
      assert js == [js[0]] + js[1..];
      OnceInMultiset(js[1..], j);
    }
  }

  /** Every accepted job is in exactly one place: queued, running on one worker, or done
      once; and no other job is anywhere. The queue never exceeds its capacity. */
  lemma JobsAreConserved(p: Pool, j: Job)
    requires Inv(p)
    ensures multiset(p.queue)[j] + InProgress(p.workers, j) + multiset(p.finished)[j]
         == if WasAccepted(p, j) then 1 else 0
    ensures |p.queue| <= 4 * |p.workers|
  {
    OnceInMultiset(p.sent, j);
    assert multiset(p.sent) == multiset(p.started) + multiset(p.queue);
  }

  // ---- Back-pressure and draining ----

  predicate IsProgress(e: Event) {
    e.Take? || e.Finish? || e.Exit? || e.Return?
  }

  /** A blocked Submit on an open pool can go ahead, or some worker can. */
  lemma SubmitIsNeverStuck(p: Pool, j: Job) returns (e: Event)
    requires Inv(p) && j < |p.calls| && p.calls[j].Blocked? && !p.closed
    ensures Enabled(p, e) && (e == Send(j) || e.Take? || e.Finish?)
  {
    e := if |p.queue| < Capacity(p) then Send(j)
         else if p.workers[0].Idle? then Take(0)
         else Finish(0);
  }

  /** A waiting Submit on an open pool of n workers goes in if and only if fewer than 4n jobs
      are queued, and behind all of them. */
  lemma SubmitGoesInIff(p: Pool, j: Job)
    requires Inv(p) && j < |p.calls| && p.calls[j].Blocked? && !p.closed
    ensures Enabled(p, Send(j)) <==> |p.queue| < 4 * |p.workers|
    ensures Enabled(p, Send(j)) ==> Step(p, Send(j)).queue == p.queue + [j] && Step(p, Send(j)).calls[j].Accepted?
  {
  }

  /** Submit can be called at any time, and closing the pool waits for nobody. */
  lemma CallersAreServed(p: Pool)
    requires Inv(p)
    ensures Enabled(p, Submit) && Step(p, Submit).calls == p.calls + [Blocked]
    ensures p.stop.NotCalled? ==>
      Enabled(p, Close) && Step(p, Close) == p.(closed := true, stop := Waiting)
  {
  }

  /** As long as jobs are queued or running, a worker can take or finish one. */
  lemma WorkIsNeverStuck(p: Pool) returns (e: Event)
    requires Inv(p) && (p.queue != [] || exists w :: 0 <= w < |p.workers| && p.workers[w].Running?)
    ensures Enabled(p, e) && (e.Take? || e.Finish?)
  {
    if w: nat :| w < |p.workers| && p.workers[w].Running? {
      e := Finish(w);
    } else {
      e := Take(0);
    }
  }

  /** No worker has to be idle while a job is queued. */
  lemma IdleWorkerCanTake(p: Pool, w: nat)
    requires Inv(p) && w < |p.workers| && p.workers[w].Idle? && p.queue != []
    ensures Enabled(p, Take(w)) && Step(p, Take(w)).workers == p.workers[w := Running(p.queue[0])]
    ensures Step(p, Take(w)).queue == p.queue[1..]
  {
  }

  /** While Stop waits, something can happen. */
  lemma StopIsNeverStuck(p: Pool) returns (e: Event)
    requires Inv(p) && p.stop.Waiting?
    ensures Enabled(p, e) && IsProgress(e)
  {
    if w :| 0 <= w < |p.workers| && !p.workers[w].Exited? {
      e := if p.workers[w].Running? then Finish(w) else if p.queue != [] then Take(w) else Exit(w);
    } else {
      e := Return;
    }
  }

  function WorkerSteps(w: Worker): nat {
    match w case Running(_) => 2 case Idle => 1 case Exited => 0
  }

  function StepsOf(workers: seq<Worker>): nat {
    if workers == [] then 0 else WorkerSteps(workers[0]) + StepsOf(workers[1..])
  }

  function StepsLeft(p: Pool): nat {
    StepsOf(p.workers) + 2 * |p.queue| + if p.stop.Returned? then 0 else 1
  }

  lemma {:induction false} StepsUpdate(workers: seq<Worker>, i: nat, w: Worker)
    requires i < |workers|
    ensures StepsOf(workers[i := w]) == StepsOf(workers) - WorkerSteps(workers[i]) + WorkerSteps(w)
  {
    if i > 0 {
      assert workers[i := w][1..] == workers[1..][i - 1 := w];
      StepsUpdate(workers[1..], i - 1, w);
    } else {
      assert workers[0 := w][1..] == workers[1..];
    }
  }

  /** And each such step is one of finitely many, so Stop returns. */
  lemma ProgressDecreases(p: Pool, e: Event)
    requires Inv(p) && Enabled(p, e) && IsProgress(e)
    ensures StepsLeft(Step(p, e)) < StepsLeft(p)
  {
    if !e.Return? {
      StepsUpdate(p.workers, e.w, Step(p, e).workers[e.w]);
    }
  }

  /** When Stop returns, every accepted job is done, exactly once, and the queue is empty. */
  lemma StopDrains(p: Pool)
    requires Inv(p) && p.stop.Returned?
    ensures p.queue == []
    ensures forall j: Job :: multiset(p.finished)[j] == if WasAccepted(p, j) then 1 else 0
  {
    assert p.workers[0].Exited?;
    forall j: Job
      ensures multiset(p.finished)[j] == if WasAccepted(p, j) then 1 else 0
    {
      InProgressNone(p.workers, j);
      JobsAreConserved(p, j);
    }
  }

  // ---- Runs ----

  ghost function Run(p: Pool, es: seq<Event>): Option<Pool>
    decreases |es|
  {
    if es == [] then Some(p)
    else if Enabled(p, es[0]) then Run(Step(p, es[0]), es[1..])
    else None
  }

  /** What the code asks of its callers: "Submit must not be called after Stop". */
  ghost predicate RespectsStop(p: Pool, es: seq<Event>)
    requires Run(p, es).Some?
    decreases |es|
  {
    es != [] ==> (es[0].Submit? ==> !p.closed) && RespectsStop(Step(p, es[0]), es[1..])
  }

  /** What it does not ask: when Stop closes the channel, no Submit is blocked on it. */
  ghost predicate ClosesQuietly(p: Pool, es: seq<Event>)
    requires Run(p, es).Some?
    decreases |es|
  {
    es != [] ==> (es[0].Close? ==> NobodyWaits(p)) && ClosesQuietly(Step(p, es[0]), es[1..])
  }

  ghost predicate NothingRefused(p: Pool) {
    NobodyPanicked(p) && (p.closed ==> forall j :: 0 <= j < |p.calls| ==> p.calls[j].Accepted?)
  }

  lemma {:induction false} RunKeepsInv(p: Pool, es: seq<Event>)
    requires Inv(p) && Run(p, es).Some?
    ensures Inv(Run(p, es).value)
    ensures RespectsStop(p, es) && ClosesQuietly(p, es) && NothingRefused(p) ==> NothingRefused(Run(p, es).value)
    decreases |es|
  {
    if es != [] {
      StepKeepsInv(p, es[0]);
      RunKeepsInv(Step(p, es[0]), es[1..]);
    }
  }

  /** In every run in which no Submit follows Stop and none is blocked when Stop closes the
      channel, nothing panics, and when Stop has returned every job that was submitted has
      been done exactly once. */
  lemma EveryJobIsDone(workerCount: int, es: seq<Event>)
    requires Run(NewPool(workerCount), es).Some?
    requires RespectsStop(NewPool(workerCount), es) && ClosesQuietly(NewPool(workerCount), es)
    ensures
      var p := Run(NewPool(workerCount), es).value;
      && NobodyPanicked(p)
      && (p.stop.Returned? ==> forall j :: 0 <= j < |p.calls| ==> multiset(p.finished)[j] == 1)
  {
    NewPoolInv(workerCount);
    RunKeepsInv(NewPool(workerCount), es);
    var p := Run(NewPool(workerCount), es).value;
    if p.stop.Returned? {
      StopDrains(p);
    }
  }

  /** Every accepted job can be done by the workers alone, Stop or no Stop. */
  lemma {:induction false} JobsCanBeDone(p: Pool) returns (es: seq<Event>)
    requires Inv(p)
    ensures Run(p, es).Some? && forall e :: e in es ==> e.Take? || e.Finish?
    ensures forall j: Job :: multiset(Run(p, es).value.finished)[j] == if WasAccepted(p, j) then 1 else 0
    decreases StepsLeft(p)
  {
    if p.queue != [] || exists w :: 0 <= w < |p.workers| && p.workers[w].Running? {
      var e := WorkIsNeverStuck(p);
      StepKeepsInv(p, e);
      ProgressDecreases(p, e);
      var rest := JobsCanBeDone(Step(p, e));
      es := [e] + rest;
      assert es[1..] == rest;
    } else {
      es := [];
      forall j: Job
        ensures multiset(p.finished)[j] == if WasAccepted(p, j) then 1 else 0
      {
        InProgressNone(p.workers, j);
        JobsAreConserved(p, j);
      }
    }
  }

  // ---- A Submit that is blocked when Stop closes the channel ----

  /** What the closed channel has not accepted it never will. */
  lemma {:induction false} RefusedForEver(p: Pool, es: seq<Event>, j: Job)
    requires p.closed && j < |p.calls| && !p.calls[j].Accepted? && Run(p, es).Some?
    ensures j < |Run(p, es).value.calls| && !Run(p, es).value.calls[j].Accepted?
    decreases |es|
  {
    if es != [] {
      RefusedForEver(Step(p, es[0]), es[1..], j);
    }
  }

  lemma {:induction false} LoudCloseRefuses(p: Pool, es: seq<Event>) returns (j: Job)
    requires Run(p, es).Some? && !ClosesQuietly(p, es)
    ensures j < |Run(p, es).value.calls| && !Run(p, es).value.calls[j].Accepted?
    decreases |es|
  {
    if es[0].Close? && !NobodyWaits(p) {
      j :| 0 <= j < |p.calls| && p.calls[j].Blocked?;
      RefusedForEver(Step(p, es[0]), es[1..], j);
    } else {
      j := LoudCloseRefuses(Step(p, es[0]), es[1..]);
    }
  }

  /** In every run in which no Submit follows Stop: when Stop has returned, every submitted
      job has been done exactly once if and only if no Submit was blocked when Stop closed
      the channel. */
  lemma EveryJobIsDoneIff(workerCount: int, es: seq<Event>)
    requires Run(NewPool(workerCount), es).Some? && RespectsStop(NewPool(workerCount), es)
    requires Run(NewPool(workerCount), es).value.stop.Returned?
    ensures
      var p := Run(NewPool(workerCount), es).value;
      (forall j :: 0 <= j < |p.calls| ==> multiset(p.finished)[j] == 1) <==> ClosesQuietly(NewPool(workerCount), es)
  {
    var p := Run(NewPool(workerCount), es).value;
    if ClosesQuietly(NewPool(workerCount), es) {
      EveryJobIsDone(workerCount, es);
    } else {
      NewPoolInv(workerCount);
      RunKeepsInv(NewPool(workerCount), es);
      StopDrains(p);
      var j := LoudCloseRefuses(NewPool(workerCount), es);
      assert multiset(p.finished)[j] == 0;
    }
  }

  /** Nobody can panic any more, however the pool goes on without further Submits. */
  ghost predicate IsSafe(p: Pool) {
    forall es :: Submit !in es && Run(p, es).Some? ==> NobodyPanicked(Run(p, es).value)
  }

  lemma {:induction false} AcceptedStay(p: Pool, es: seq<Event>)
    requires NobodyPanicked(p) && NobodyWaits(p) && Submit !in es && Run(p, es).Some?
    ensures NobodyPanicked(Run(p, es).value)
    decreases |es|
  {
    if es != [] {
      assert es[0] in es && forall e :: e in es[1..] ==> e in es;
      AcceptedStay(Step(p, es[0]), es[1..]);
    }
  }

  /** Closing the channel is safe if and only if no Submit is blocked on it: Go panics a
      sender that is already waiting, although its call came before Stop. */
  lemma CloseIsSafeIff(p: Pool)
    requires Inv(p) && Enabled(p, Close) && NobodyPanicked(p)
    ensures IsSafe(Step(p, Close)) <==> NobodyWaits(p)
  {
    var p' := Step(p, Close);
    if NobodyWaits(p) {
      forall es | Submit !in es && Run(p', es).Some?
        ensures NobodyPanicked(Run(p', es).value)
      {
        AcceptedStay(p', es);
      }
    } else {
      var j :| 0 <= j < |p.calls| && p.calls[j].Blocked?;
      var es := [SendClosed(j)];
      assert es[1..] == [] && Run(p', es) == Some(Step(p', SendClosed(j)));
      assert Run(p', es).value.calls[j].Panicked?;
    }
  }

  /** A run in which no Submit follows Stop and one panics nevertheless. */
  lemma BlockedSubmitPanics(workerCount: int)
    ensures
      var es := [Submit, Close, SendClosed(0)];
      && Run(NewPool(workerCount), es).Some? && RespectsStop(NewPool(workerCount), es)
      && Run(NewPool(workerCount), es).value.calls == [Panicked]
  {
    var p0 := NewPool(workerCount);
    var p1 := Step(p0, Submit);
    var p2 := Step(p1, Close);
    var p3 := Step(p2, SendClosed(0));
    var e1, e2 := [SendClosed(0)], [Close, SendClosed(0)];
    assert e1[1..] == [] && e2[1..] == e1 && [Submit, Close, SendClosed(0)][1..] == e2;
    assert Run(p2, e1) == Some(p3) && RespectsStop(p2, e1);
    assert Run(p1, e2) == Some(p3) && RespectsStop(p1, e2);
  }

  // ---- Draining ----

  /** Once Stop waits, no run of the workers is longer than the steps that are left. */
  lemma {:induction false} DrainIsBounded(p: Pool, es: seq<Event>)
    requires Inv(p) && Run(p, es).Some? && forall e :: e in es ==> IsProgress(e)
    ensures |es| + StepsLeft(Run(p, es).value) <= StepsLeft(p)
    decreases |es|
  {
    if es != [] {
      assert es[0] in es;
      StepKeepsInv(p, es[0]);
      ProgressDecreases(p, es[0]);
      DrainIsBounded(Step(p, es[0]), es[1..]);
    }
  }
}
