/** The worker pool and the scheduler as objects: each pool method is one operation on
    the channel of worker/pool.go, proved to be the step of the protocol. */
module PoolObjects {
  import opened WorkerPool
  import C = SessionCreation

  class JobQueue {
    const capacity: nat
    var jobs: seq<Job>
    var closed: bool

    /** The channel that NewWorkerPool makes. */
    constructor (workerCount: int)
      ensures Is(NewPool(workerCount))
    {
      capacity := (if workerCount <= 0 then 1 else workerCount) * 4;
      jobs, closed := [], false;
    }

    /** This channel is the one of the pool state `p`. */
    ghost predicate Is(p: Pool)
      reads this
    {
      jobs == p.queue && closed == p.closed && capacity == WorkerPool.Capacity(p)
    }

    /** The send of Submit: it goes through exactly when the protocol allows it. */
    method Send(job: Job, ghost p: Pool) returns (sent: bool)
      requires Is(p) && !closed && job < |p.calls| && p.calls[job].Blocked?
      modifies this`jobs
      ensures sent == Enabled(p, Event.Send(job))
      ensures Is(if sent then Step(p, Event.Send(job)) else p)
    {
      sent := |jobs| < capacity;
      if sent {
        jobs := jobs + [job];
      }
    }

    /** One receive in the range loop of worker `w`: a job, the end, or neither yet. */
    method Receive(w: nat, ghost p: Pool) returns (job: Job, got: bool, ended: bool)
      requires Is(p) && w < |p.workers| && p.workers[w].Idle?
      modifies this`jobs
      ensures got == Enabled(p, Take(w)) && ended == Enabled(p, Exit(w))
      ensures got ==> Is(Step(p, Take(w))) && Step(p, Take(w)).workers[w] == Running(job)
      ensures !got ==> Is(p)
    {
      job, got, ended := 0, |jobs| > 0, |jobs| == 0 && closed;
      if got {
        job, jobs := jobs[0], jobs[1..];
      }
    }

    /** The close of Stop. */
    method Close(ghost p: Pool)
      requires Is(p) && Enabled(p, Event.Close)
      modifies this`closed
      ensures Is(Step(p, Event.Close))
    {
      closed := true;
    }
  }

  /** The registered ids below `n`, in increasing order. */
  function Registered(sessions: map<C.SessionId, C.Session>, n: nat): seq<C.SessionId> {
    if n == 0 then []
    else Registered(sessions, n - 1) + if n - 1 in sessions then [n - 1] else []
  }

  /** These are the registered ids below `n`, each once, from the lowest up. */
  lemma {:induction false} RegisteredIff(sessions: map<C.SessionId, C.Session>, n: nat)
    ensures forall id :: id in Registered(sessions, n) <==> id in sessions && 0 <= id < n
    ensures forall j, k :: 0 <= j < k < |Registered(sessions, n)| ==>
      Registered(sessions, n)[j] < Registered(sessions, n)[k]
  {
    if n > 0 {
      RegisteredIff(sessions, n - 1);
      var ids := Registered(sessions, n - 1);
      assert forall j :: 0 <= j < |ids| ==> ids[j] in ids;
    }
  }

  /** What one pass of the scheduler submits, in order. */
  class Scheduler {
    const manager: C.SessionManager
    var submitted: seq<C.SessionId>

    constructor (manager: C.SessionManager)
      ensures this.manager == manager && submitted == []
    {
      this.manager := manager;
      submitted := [];
    }

    /** dispatchJobs, with nobody in between. */
    method DispatchJobs()
      modifies this
      ensures submitted == old(submitted) + Registered(manager.sessions, |manager.sessions|)
    {
      var count := manager.Count();
      for id := 0 to count
        invariant submitted == old(submitted) + Registered(manager.sessions, id)
      {
        var s := manager.GetSession(id);
        if s.Some? {
          submitted := submitted + [id];
        }
      }
    }
  }
}
