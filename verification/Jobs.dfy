/** The bounded job history of the Hitachi personality. */
module Jobs {
  import opened Model

  datatype JobState = Completed | Failed(message: string)

  datatype Job = Job(id: nat, state: JobState, resources: seq<string>)

  /** What callers submit, in order. */
  datatype Submission = Submission(state: JobState, resources: seq<string>)

  /** All jobs ever submitted: ids count from 1. */
  function AllJobs(subs: seq<Submission>): (jobs: seq<Job>)
    ensures |jobs| == |subs|
    ensures forall i :: 0 <= i < |subs| ==> jobs[i] == Job(i + 1, subs[i].state, subs[i].resources)
  {
    seq(|subs|, i requires 0 <= i < |subs| => Job(i + 1, subs[i].state, subs[i].resources))
  }

  /** Storing evicts from the front while the history is too long. */
  function Trimmed(jobs: seq<Job>, max: nat): seq<Job> {
    if |jobs| > max then Trimmed(jobs[1..], max) else jobs
  }

  function Tracked(subs: seq<Submission>, max: nat): seq<Job> {
    if subs == [] then []
    else
      var k := |subs| - 1;
      Trimmed(Tracked(subs[..k], max) + [Job(k + 1, subs[k].state, subs[k].resources)], max)
  }

  function Min(a: nat, b: nat): nat { if a < b then a else b }

  lemma {:induction false} TrimmedIsSuffix(jobs: seq<Job>, max: nat)
    ensures Trimmed(jobs, max) == jobs[|jobs| - Min(|jobs|, max)..]
    decreases |jobs|
  {
    if |jobs| > max {
      TrimmedIsSuffix(jobs[1..], max);
    }
  }

  /** After any n submissions the history is exactly the last min(n, max) jobs, in order. */
  lemma {:induction false} HistoryIsWindow(subs: seq<Submission>, max: nat)
    ensures Tracked(subs, max) == AllJobs(subs)[|subs| - Min(|subs|, max)..]
    decreases |subs|
  {
    if subs != [] {
      var k := |subs| - 1;
      HistoryIsWindow(subs[..k], max);
      TrimmedIsSuffix(Tracked(subs[..k], max) + [Job(k + 1, subs[k].state, subs[k].resources)], max);
      assert AllJobs(subs) == AllJobs(subs[..k]) + [Job(k + 1, subs[k].state, subs[k].resources)];
    }
  }

  function Find(jobs: seq<Job>, id: nat): Option<Job> {
    if jobs == [] then None
    else if jobs[|jobs| - 1].id == id then Some(jobs[|jobs| - 1])
    else Find(jobs[..|jobs| - 1], id)
  }

  lemma {:induction false} FindIndexed(jobs: seq<Job>, first: nat, id: nat)
    requires forall i :: 0 <= i < |jobs| ==> jobs[i].id == first + i
    ensures Find(jobs, id) == if first <= id < first + |jobs| then Some(jobs[id - first]) else None
    decreases |jobs|
  {
    if jobs != [] {
      FindIndexed(jobs[..|jobs| - 1], first, id);
    }
  }

  /** A look-up succeeds exactly for the ids of the window and returns the job submitted under the id. */
  lemma FindExact(subs: seq<Submission>, max: nat, id: nat)
    ensures Find(Tracked(subs, max), id)
            == if |subs| - Min(|subs|, max) < id <= |subs|
               then Some(Job(id, subs[id - 1].state, subs[id - 1].resources)) else None
  {
    HistoryIsWindow(subs, max);
    FindIndexed(Tracked(subs, max), |subs| - Min(|subs|, max) + 1, id);
  }

  class JobTracker {
    var jobs: seq<Job>
    var nextId: nat
    const maxHistory: nat
    /** Everything submitted so far. */
    ghost var submitted: seq<Submission>

    ghost predicate Valid()
      reads this
    {
      nextId == |submitted| + 1 && jobs == Tracked(submitted, maxHistory)
    }

    constructor (maxHistory: nat)
      ensures Valid() && submitted == [] && this.maxHistory == maxHistory
    {
      jobs, nextId, submitted := [], 1, [];
      this.maxHistory := maxHistory;
    }

    method SubmitCompleted(resources: seq<string>) returns (job: Job)
      requires Valid()
      modifies this
      ensures Valid() && submitted == old(submitted) + [Submission(Completed, resources)]
      ensures job == Job(|submitted|, Completed, resources)
    {
      job := Job(nextId, Completed, resources);
      nextId := nextId + 1;
      Store(job);
      submitted := submitted + [Submission(Completed, resources)];
      assert submitted[..|submitted| - 1] == old(submitted);
    }

    method SubmitFailed(message: string, resources: seq<string>) returns (job: Job)
      requires Valid()
      modifies this
      ensures Valid() && submitted == old(submitted) + [Submission(Failed(message), resources)]
      ensures job == Job(|submitted|, Failed(message), resources)
    {
      job := Job(nextId, Failed(message), resources);
      nextId := nextId + 1;
      Store(job);
      submitted := submitted + [Submission(Failed(message), resources)];
      assert submitted[..|submitted| - 1] == old(submitted);
    }

    method Get(id: nat) returns (job: Option<Job>)
      requires Valid()
      ensures job == if |submitted| - Min(|submitted|, maxHistory) < id <= |submitted|
                     then Some(Job(id, submitted[id - 1].state, submitted[id - 1].resources)) else None
    {
      job := Find(jobs, id);
      FindExact(submitted, maxHistory, id);
    }

    method Store(job: Job)
      modifies this`jobs
      ensures jobs == Trimmed(old(jobs) + [job], maxHistory)
    {
      jobs := jobs + [job];
      while |jobs| > maxHistory
        invariant Trimmed(jobs, maxHistory) == Trimmed(old(jobs) + [job], maxHistory)
      {
        jobs := jobs[1..];
      }
    }
  }
}
