/**
 * The TX queue (daemon_tx_queue.cpp): a ring of 8 jobs that refuses when full, and the
 * worker's accounting around it (daemon_tx_worker.cpp).
 */
module TxQueue {
  import opened Prelude
  import opened TxJob
  import opened Ring

  const JOBS: nat := 8

  class JobQueue {
    const jobs: array<Job>
    var head: nat
    var tail: nat
    var count: nat
    var dropped: nat

    ghost predicate Valid()
      reads this
    {
      && jobs.Length == JOBS && head < JOBS && tail < JOBS && count <= JOBS
      && tail == At(JOBS, head, count)
    }

    ghost function Contents(): seq<Job>
      reads this, jobs
      requires Valid()
    {
      Held(jobs[..], head, count)
    }

    constructor (blank: Job)
      ensures Valid() && fresh(jobs) && Contents() == [] && dropped == 0
    {
      jobs := new Job[JOBS](_ => blank);
      head, tail, count, dropped := 0, 0, 0, 0;
    }

    /** Full: the submission is refused and no packet is discarded. */
    method Push(job: Job) returns (ok: bool)
      requires Valid()
      modifies this, jobs
      ensures Valid() && dropped == old(dropped)
      ensures ok <==> |old(Contents())| < JOBS
      ensures Contents() == if ok then old(Contents()) + [job] else old(Contents())
    {
      if count >= JOBS {
        return false;
      }
      PushHeld(jobs[..], head, count, job);
      ghost var was := jobs[..];
      jobs[tail] := job;
      assert jobs[..] == was[tail := job];
      tail := (tail + 1) % JOBS;
      count := count + 1;
      ok := true;
    }

    method Pop() returns (job: Option<Job>)
      requires Valid()
      modifies this
      ensures Valid() && dropped == old(dropped)
      ensures var was := old(Contents());
              if was == [] then job == None && Contents() == [] else job == Some(was[0]) && Contents() == was[1..]
    {
      if count == 0 {
        return None;
      }
      PopHeld(jobs[..], head, count);
      job := Some(jobs[head]);
      head := (head + 1) % JOBS;
      count := count - 1;
    }

    method DiscardAll(blank: Job) returns (discarded: nat)
      requires Valid()
      modifies this, jobs
      ensures Valid() && Contents() == []
      ensures discarded == |old(Contents())| && dropped == old(dropped) + discarded
    {
      discarded := count;
      forall i | 0 <= i < JOBS {
        jobs[i] := blank;
      }
      head, tail, count := 0, 0, 0;
      dropped := dropped + discarded;
    }
  }
}
