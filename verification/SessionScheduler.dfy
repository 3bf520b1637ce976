/**
 The scheduler object: the heap of jobs, the token map and the one-slot trigger. Each method
 runs under the mutex, so each is one step on the `Core` of module `SchedulerCore`. Clock
 readings are parameters.
 */
module SessionScheduling {
  import opened SchedulerCore
  import opened SessionHeap

  const DEFAULT_WAIT: nat := 24 * 3600 * 1_000_000_000 // 24 hours

  class SessionScheduler {
    const jobs: SessionJobHeap
    var jobMap: map<string, SessionJob>
    var trigger: bool // a value is waiting in the trigger channel
    ghost var all: set<SessionJob> // every job ever created

    ghost function View(): Core<SessionJob>
      reads this`jobMap, this`all, jobs, all
    {
      Core(map j | j in all :: Job(j.token, j.claims, j.runAt, j.canceled), jobs.Members(), jobMap)
    }

    ghost predicate Valid()
      reads this`jobMap, this`all, jobs, jobs.h, all
    {
      && jobs.Valid()
      && jobs.Members() <= all
      && Inv(View())
    }

    constructor ()
      ensures Valid() && fresh(jobs)
      ensures View() == Empty() && !trigger
    {
      jobs := new SessionJobHeap();
      jobMap := map[];
      trigger := false;
      all := {};
    }

    /** Schedules or reschedules the receipt of a token, and leaves the trigger set. */
    method ScheduleSessionReceipt(token: string, claims: Claims, now: int, delay: int)
      requires Valid()
      modifies this`jobMap, this`all, this`trigger, jobs, all
      ensures Valid() && trigger
      ensures token in jobMap && (token in old(jobMap) || fresh(jobMap[token]))
      ensures View() == Schedule(old(View()), token, claims, now + delay, jobMap[token])
      ensures token in old(jobMap) ==> all == old(all)
      ensures token !in old(jobMap) ==> all == old(all) + {jobMap[token]}
    {
      ghost var was := View();
      if token in jobMap {
        var job := jobMap[token];
        assert Mapped(was, token) && job.token == token;
        Reschedule(job, claims, now + delay);
        assert View() == Schedule(was, token, claims, now + delay, job);
      } else {
        Add(token, claims, now + delay);
      }
      ghost var v := View();
      trigger := true;
      assert View() == v;
    }

    // An existing job: its key changes in place and the heap is repaired.
    method Reschedule(job: SessionJob, claims: Claims, at: int)
      requires Valid() && job.token in jobMap && jobMap[job.token] == job
      modifies jobs, all
      ensures Valid()
      ensures View() == Schedule(old(View()), job.token, claims, at, job)
    {
      ghost var was := View();
      assert Mapped(was, job.token);
      ghost var r := jobs.Times();
      job.claims := claims;
      job.runAt := at;
      job.canceled := false;
      KeyChange(r, jobs.Times(), job.index);
      jobs.Fix(job.index);
      assert View().heap == was.heap;
      assert View().jobs == Schedule(was, job.token, claims, at, job).jobs;
      ScheduleKeepsInv(was, job.token, claims, at, job);
    }

    method Add(token: string, claims: Claims, at: int)
      requires Valid() && token !in jobMap
      modifies this`jobMap, this`all, jobs, all
      ensures Valid()
      ensures token in jobMap && fresh(jobMap[token]) && all == old(all) + {jobMap[token]}
      ensures View() == Schedule(old(View()), token, claims, at, jobMap[token])
    {
      ghost var was := View();
      var job := new SessionJob(token, claims, at);
      assert job !in all && job !in jobs.h;
      jobs.HeapPush(job);
      jobMap := jobMap[token := job];
      all := all + {job};
      assert View().jobs == was.jobs[job := Job(token, claims, at, false)];
      assert View().heap == was.heap + {job};
      ScheduleKeepsInv(was, token, claims, at, job);
    }

    method CancelSessionReceipt(token: string) returns (ok: bool)
      requires Valid()
      modifies this`jobMap, all
      ensures Valid()
      ensures ok <==> token in old(jobMap)
      ensures View() == Cancel(old(View()), token)
    {
      ghost var was := View();
      if token in jobMap {
        var job := jobMap[token];
        assert Mapped(was, token);
        job.canceled := true;
        jobMap := jobMap - {token};
        ok := true;
      } else {
        ok := false;
      }
      assert View().heap == was.heap;
      assert View().jobs == Cancel(was, token).jobs;
      CancelKeepsInv(was, token);
    }

    /** The drain loop of `run`. `started` lists, in order, what was handed to submitFn. */
    method Drain(now: int) returns (started: seq<(string, Claims)>, ghost popped: seq<SessionJob>)
      requires Valid()
      modifies this`jobMap, jobs, all
      ensures Valid() && all == old(all)
      ensures Drains(old(View()), now, popped, View())
      ensures forall j :: j in popped ==> j in old(View()).jobs
      ensures started == Started(old(View()), popped)
    {
      ghost var was := View();
      started, popped := [], [];
      while jobs.h != [] && jobs.h[0].runAt <= now
        invariant Valid() && all == old(all) && jobs.Members() <= old(jobs.Members())
        invariant Pops(was, now, popped, View())
        invariant View().jobs == was.jobs
        invariant forall j :: j in popped ==> j in was.jobs
        invariant started == Started(was, popped)
        decreases |jobs.h|
      {
        ghost var s := View();
        var job := PopHead();
        if !job.canceled {
          started := started + [(job.token, job.claims)];
        }
        PopsAppend(was, now, popped, s, job);
        StartedAppend(was, popped, job);
        popped := popped + [job];
      }
      if jobs.h != [] { HeadIsHead(); }
    }

    // One iteration of the drain loop: pops the head and forgets its token.
    method PopHead() returns (job: SessionJob)
      requires Valid() && jobs.h != []
      modifies this`jobMap, jobs, jobs.h`index
      ensures Valid() && |jobs.h| == |old(jobs.h)| - 1
      ensures job == old(jobs.h[0]) && IsHead(old(View()), job) && View() == Pop(old(View()), job)
      ensures forall j :: j in jobs.h ==> j in old(jobs.h)
    {
      ghost var was := View();
      HeadIsHead();
      job := jobs.HeapPop();
      jobMap := jobMap - {job.token};
      assert View().jobs == was.jobs;
      PopKeepsInv(was, job);
      assert forall j :: j in jobs.h ==> j in jobs.Members();
    }

    /** How long `run` asks the timer to wait, by the clock reading `now`. */
    method NextWait(now: int) returns (wait: nat)
      requires Valid()
      ensures WaitIs(View(), now, wait)
      ensures jobs.h == [] ==> wait == 86_400_000_000_000
      ensures jobs.h != [] ==> wait == if jobs.h[0].runAt < now then 0 else jobs.h[0].runAt - now
    {
      if jobs.h != [] {
        HeadIsHead();
        wait := WaitFor(jobs.h[0].runAt, now);
        assert jobs.h[0] in View().heap;
      } else {
        wait := DEFAULT_WAIT;
        assert View().heap == {};
      }
    }

    lemma HeadIsHead()
      requires Valid() && jobs.h != []
      ensures IsHead(View(), jobs.h[0])
    {
      forall k | k in View().heap ensures jobs.h[0].runAt <= k.runAt {
        var i :| 0 <= i < |jobs.h| && jobs.h[i] == k;
        RootIsLeast(jobs.Times(), |jobs.h|, i);
      }
    }
  }

  function WaitFor(runAt: int, now: int): nat {
    if runAt - now < 0 then 0 else runAt - now
  }

  // The wait computed from the head of the heap, or the default when there is none.
  ghost predicate WaitIs<J>(s: Core<J>, now: int, wait: nat) {
    if s.heap == {} then wait == DEFAULT_WAIT
    else exists j :: j in s.heap && IsHead(s, j) && wait == WaitFor(s.jobs[j].runAt, now)
  }

  // The receipts handed to submitFn, in pop order.
  function Started<J(==)>(s: Core<J>, popped: seq<J>): seq<(string, Claims)>
    requires forall j :: j in popped ==> j in s.jobs
  {
    if popped == [] then []
    else
      var j := popped[|popped| - 1];
      Started(s, popped[..|popped| - 1]) + if s.jobs[j].canceled then [] else [(s.jobs[j].token, s.jobs[j].claims)]
  }

  lemma StartedAppend<J>(s: Core<J>, popped: seq<J>, j: J)
    requires forall k :: k in popped + [j] ==> k in s.jobs
    ensures Started(s, popped + [j])
         == Started(s, popped) + if s.jobs[j].canceled then [] else [(s.jobs[j].token, s.jobs[j].claims)]
  {
    assert (popped + [j])[..|popped|] == popped;
  }

  /** What the drain loop starts is what `Submitted` says, receipt by receipt. */
  lemma {:induction false} StartedIsSubmitted<J>(s: Core<J>, popped: seq<J>)
    requires forall j :: j in popped ==> j in s.jobs
    ensures (set x | x in Started(s, popped)) == Submitted(s, popped)
  {
    if popped != [] {
      var front, j := popped[..|popped| - 1], popped[|popped| - 1];
      StartedIsSubmitted(s, front);
      assert popped == front + [j];
      assert Submitted(s, popped)
          == Submitted(s, front) + if s.jobs[j].canceled then {} else {(s.jobs[j].token, s.jobs[j].claims)};
    }
  }
}
