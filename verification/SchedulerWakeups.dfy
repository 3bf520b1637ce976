/**
 What wakes and ends the goroutine `run`, over whole runs: the trigger holds at most one signal, which
 a Schedule leaves and one wake-up takes away, and the shutdown channel stays closed.
 */
module SchedulerWakeups {
  import opened SchedulerCore
  import opened SchedulerMachine

  // ---------- the trigger ----------

  // The k-th step is a Schedule, and no wake-up by the trigger has come between it and step n.
  ghost predicate Unanswered<J>(steps: seq<Step<J>>, k: nat, n: nat) {
    k < n <= |steps| && steps[k].CallSchedule? && forall x :: k < x < n ==> !steps[x].WakeByTrigger?
  }

  /** In every run a signal is pending exactly if a Schedule has come since the last wake-up by it. */
  lemma {:induction false} TriggerPendingIff<J>(tr: seq<State<J>>, steps: seq<Step<J>>, n: nat)
    requires IsRun(tr, steps) && n < |tr|
    ensures tr[n].trigger <==> exists k: nat :: Unanswered(steps, k, n)
  {
    if n > 0 {
      TriggerPendingIff(tr, steps, n - 1);
      assert Moves(tr[n - 1], steps[n - 1], tr[n]);
      if steps[n - 1].CallSchedule? {
        assert Unanswered(steps, n - 1, n);
      } else if steps[n - 1].WakeByTrigger? {
        assert forall k: nat :: k < n - 1 ==> !Unanswered(steps, k, n);
      } else {
        forall k: nat ensures Unanswered(steps, k, n) <==> Unanswered(steps, k, n - 1) {
        }
        if tr[n].trigger {
          var k: nat :| Unanswered(steps, k, n - 1);
          assert Unanswered(steps, k, n);
        }
      }
    }
  }

  /** Before every wake-up by the trigger a Schedule has come, after the wake-up before it. */
  lemma WakeupNeedsSchedule<J>(tr: seq<State<J>>, steps: seq<Step<J>>, n: nat) returns (k: nat)
    requires IsRun(tr, steps) && n < |steps| && steps[n].WakeByTrigger?
    ensures k < n && steps[k].CallSchedule? && forall x :: k < x < n ==> !steps[x].WakeByTrigger?
  {
    assert Moves(tr[n], steps[n], tr[n + 1]);
    TriggerPendingIff(tr, steps, n);
    k :| Unanswered(steps, k, n);
  }

  function Schedules<J>(steps: seq<Step<J>>): nat {
    if steps == [] then 0 else Schedules(steps[..|steps| - 1]) + if steps[|steps| - 1].CallSchedule? then 1 else 0
  }

  function Wakeups<J>(steps: seq<Step<J>>): nat {
    if steps == [] then 0 else Wakeups(steps[..|steps| - 1]) + if steps[|steps| - 1].WakeByTrigger? then 1 else 0
  }

  /** So the trigger never wakes `run` more often than Schedule has been called, and once less while a
      signal is pending. */
  lemma {:induction false} WakeupsAreBounded<J>(tr: seq<State<J>>, steps: seq<Step<J>>, n: nat)
    requires IsRun(tr, steps) && n < |tr|
    ensures Wakeups(steps[..n]) + (if tr[n].trigger then 1 else 0) <= Schedules(steps[..n])
  {
    if n > 0 {
      WakeupsAreBounded(tr, steps, n - 1);
      assert Moves(tr[n - 1], steps[n - 1], tr[n]);
      assert steps[..n][..n - 1] == steps[..n - 1];
    }
  }

  /** Whenever `run` waits and no Schedule has come since it was last woken by the trigger, the timer
      alone is enough: it has fired, or it is armed in time for the head. */
  lemma TimerIsEnough<J>(tr: seq<State<J>>, steps: seq<Step<J>>, n: nat, head: J)
    requires IsRun(tr, steps) && n < |tr|
    requires tr[n].pc.Waiting? && IsHead(tr[n].core, head)
    requires forall k: nat :: !Unanswered(steps, k, n)
    ensures
      var s := tr[n];
      || s.timer.Fired?
      || (s.timer.Armed? &&
          s.timer.deadline <= Max(s.core.jobs[head].runAt, s.pc.readAt) + (s.pc.armedAt - s.pc.readAt))
  {
    TriggerPendingIff(tr, steps, n);
    NoLostWakeup(tr, steps, n, head);
  }

  // ---------- the timer ----------

  // The k-th step armed the timer, and up to step n it has not been armed again, received from or stopped.
  ghost predicate StillSet<J>(steps: seq<Step<J>>, k: nat, n: nat) {
    && k < n <= |steps| && steps[k].Arm?
    && forall x :: k < x < n ==> !steps[x].Arm? && !steps[x].WakeByTimer? && !steps[x].Return?
  }

  ghost predicate FiredSince<J>(steps: seq<Step<J>>, k: nat, n: nat) {
    exists x :: k < x < n <= |steps| && steps[x].Fire?
  }

  // When the timer armed by a step goes off.
  function Deadline<J>(s: State<J>): int {
    if s.pc.Arming? then s.clock + s.pc.wait else s.clock
  }

  ghost predicate TimerIs<J>(tr: seq<State<J>>, steps: seq<Step<J>>, k: nat, n: nat)
    requires k < |tr| && n < |tr|
  {
    if FiredSince(steps, k, n) then tr[n].timer == Fired && Deadline(tr[k]) <= tr[n].clock
    else tr[n].timer == Armed(Deadline(tr[k]))
  }

  lemma {:induction false} TimerTells<J>(tr: seq<State<J>>, steps: seq<Step<J>>, n: nat)
    requires IsRun(tr, steps) && n < |tr|
    ensures forall k: nat :: StillSet(steps, k, n) ==> TimerIs(tr, steps, k, n)
    ensures tr[n].timer.Idle? || exists k: nat :: StillSet(steps, k, n)
  {
    if n > 0 {
      var s, l := tr[n - 1], steps[n - 1];
      TimerTells(tr, steps, n - 1);
      assert Moves(s, l, tr[n]);
      forall k: nat | StillSet(steps, k, n) ensures TimerIs(tr, steps, k, n) {
        if k < n - 1 {
          assert StillSet(steps, k, n - 1) && TimerIs(tr, steps, k, n - 1);
          assert FiredSince(steps, k, n) <==> FiredSince(steps, k, n - 1) || l.Fire?;
        }
      }
      if l.Arm? {
        assert StillSet(steps, n - 1, n);
      } else if !l.WakeByTimer? && !l.Return? && !s.timer.Idle? {
        var k: nat :| StillSet(steps, k, n - 1);
        assert StillSet(steps, k, n);
      }
    }
  }

  /** The timer wakes `run` only after it has fired since it was last armed, and never before the wait it
      was armed with has passed. */
  lemma NeverWokenEarly<J>(tr: seq<State<J>>, steps: seq<Step<J>>, n: nat) returns (k: nat)
    requires IsRun(tr, steps) && n < |steps| && steps[n].WakeByTimer?
    ensures StillSet(steps, k, n) && FiredSince(steps, k, n) && tr[k].pc.Arming?
    ensures tr[k].clock + tr[k].pc.wait <= tr[n].clock
  {
    TimerTells(tr, steps, n);
    assert Moves(tr[n], steps[n], tr[n + 1]);
    k :| StillSet(steps, k, n);
    assert Moves(tr[k], steps[k], tr[k + 1]);
    assert TimerIs(tr, steps, k, n);
  }

  // ---------- callers, and the end ----------

  /** Outside the mutex every caller gets through: Cancel at any time, Stop unless it has been called
      before, since closing a channel twice panics. */
  lemma {:induction false} CallersGetThrough<J>(tr: seq<State<J>>, steps: seq<Step<J>>, n: nat, token: string)
    requires IsRun(tr, steps) && n < |tr|
    ensures !tr[n].pc.Draining? && !tr[n].pc.Arming? <==> Enabled(tr[n], CallCancel(token))
    ensures Enabled(tr[n], CallStop) <==> forall k :: 0 <= k < n ==> !steps[k].CallStop?
  {
    if n > 0 {
      CallersGetThrough(tr, steps, n - 1, token);
      assert Moves(tr[n - 1], steps[n - 1], tr[n]);
    }
  }

  /** In every run `run` can return exactly if it waits and Stop has been called before. */
  lemma {:induction false} ReturnsIff<J>(tr: seq<State<J>>, steps: seq<Step<J>>, n: nat)
    requires IsRun(tr, steps) && n < |tr|
    ensures tr[n].shutdown <==> exists k :: 0 <= k < n && steps[k].CallStop?
    ensures Enabled(tr[n], Return) <==> tr[n].pc.Waiting? && exists k :: 0 <= k < n && steps[k].CallStop?
  {
    if n > 0 {
      ReturnsIff(tr, steps, n - 1);
      assert Moves(tr[n - 1], steps[n - 1], tr[n]);
    }
  }

  /** A `run` that has ended stays ended: its timer is off, and nothing leaves the heap any more. */
  lemma {:induction false} EndIsFinal<J>(tr: seq<State<J>>, steps: seq<Step<J>>, m: nat, n: nat)
    requires IsRun(tr, steps) && m <= n < |tr| && tr[m].pc.Stopped?
    ensures tr[n].pc.Stopped? && tr[n].exits == tr[m].exits && tr[m].core.heap <= tr[n].core.heap
    ensures tr[n].timer.Idle?
    decreases n, m
  {
    if m == n {
      if m > 0 {
        assert Moves(tr[m - 1], steps[m - 1], tr[m]);
        if tr[m - 1].pc.Stopped? { EndIsFinal(tr, steps, m - 1, m - 1); }
      }
    } else {
      EndIsFinal(tr, steps, m, n - 1);
      assert Moves(tr[n - 1], steps[n - 1], tr[n]);
    }
  }

  // Steps of the goroutine itself.
  predicate OfRun<J>(l: Step<J>) {
    l.Lock? || l.PopDue? || l.ReadWait? || l.Arm? || l.WakeByTimer? || l.WakeByTrigger? || l.Return?
  }

  ghost predicate AllOfRun<J>(steps: seq<Step<J>>) {
    forall l :: l in steps ==> OfRun(l)
  }

  // How far `run` is from its end, while nothing is due.
  function Distance(pc: Pc): nat {
    match pc
    case Entering => 4
    case Draining(_) => 3
    case Arming(_, _) => 2
    case Waiting(_, _) => 1
    case Stopped => 0
  }

  lemma OneMore<J>(s: State<J>, l: Step<J>, rest: seq<Step<J>>, s': State<J>) returns (steps: seq<Step<J>>)
    requires Enabled(s, l) && OfRun(l) && AllOfRun(rest) && Leads(Apply(s, l), rest, s')
    ensures AllOfRun(steps) && Leads(s, steps, s')
  {
    steps := [l] + rest;
    assert steps[1..] == rest;
  }

  /** After a Stop, `run` can come to its end by its own steps from wherever it is, after handing over
      or dropping what is due. */
  lemma {:induction false} CanEnd<J>(s: State<J>) returns (steps: seq<Step<J>>, s': State<J>)
    requires Ok(s) && s.shutdown
    ensures AllOfRun(steps) && Leads(s, steps, s') && s'.pc.Stopped?
    decreases |s.core.heap|, Distance(s.pc)
  {
    if s.pc.Stopped? {
      steps, s' := [], s;
    } else {
      var l := NextOfRun(s);
      StepKeepsOk(s, l);
      if l.PopDue? { assert Apply(s, l).core.heap == s.core.heap - {l.job} && l.job in s.core.heap; }
      steps, s' := CanEnd(Apply(s, l));
      steps := OneMore(s, l, steps, s');
    }
  }

  // A step towards the end.
  lemma NextOfRun<J>(s: State<J>) returns (l: Step<J>)
    requires Ok(s) && s.shutdown && !s.pc.Stopped?
    ensures Enabled(s, l) && OfRun(l)
    ensures match s.pc
      case Waiting(_, _) => l.Return?
      case Entering => l.Lock?
      case Arming(_, _) => l.Arm?
      case Draining(_) => l.ReadWait? || l.PopDue?
      case Stopped => false
  {
    match s.pc
    case Waiting(_, _) => l := Return;
    case Entering => l := Lock;
    case Arming(_, _) => l := Arm;
    case Draining(_) =>
      NeverStuckInLock(s);
      if j :| Enabled(s, PopDue(j)) {
        l := PopDue(j);
      } else {
        var w :| Enabled(s, ReadWait(w));
        l := ReadWait(w);
      }
  }
}
