/**
 The scheduler as an interleaved state machine: callers of Schedule, Cancel and Stop, the
 clock, the timer, and the goroutine `run`, which is either outside the mutex, inside it
 (draining, then arming the timer), or waiting in its select.
 */
module SchedulerMachine {
  import opened SchedulerCore
  import opened SessionScheduling

  datatype Timer = Idle | Armed(deadline: int) | Fired

  datatype Pc =
    | Entering                              // about to lock
    | Draining(now: int)                    // holds the lock, popping jobs due at `now`
    | Arming(readAt: int, wait: nat)        // holds the lock, wait computed at `readAt`
    | Waiting(readAt: int, armedAt: int)    // unlocked, in or before the select
    | Stopped

  // A job that left the heap: handed to submitFn, or dropped as cancelled.
  datatype Exit<J> = Exit(job: J, runAt: int, at: int, submitted: bool)

  datatype State<J(==)> = State(
    core: Core<J>, clock: int, pc: Pc, timer: Timer, trigger: bool, shutdown: bool, exits: seq<Exit<J>>)

  datatype Step<J> =
    | CallSchedule(token: string, claims: Claims, delay: int, id: J)
    | CallCancel(token: string)
    | CallStop
    | Tick(d: nat)
    | Fire
    | Lock
    | PopDue(job: J)
    | ReadWait(wait: nat)
    | Arm
    | WakeByTimer
    | WakeByTrigger
    | Return

  predicate Unlocked(pc: Pc) {
    pc.Entering? || pc.Waiting? || pc.Stopped?
  }

  ghost predicate Enabled<J>(s: State<J>, l: Step<J>) {
    match l
    case CallSchedule(token, _, _, id) => Unlocked(s.pc) && (token in s.core.jobMap || id !in s.core.jobs)
    case CallCancel(_) => Unlocked(s.pc)
    case CallStop => !s.shutdown
    case Tick(_) => true
    case Fire => s.timer.Armed? && s.timer.deadline <= s.clock
    case Lock => s.pc.Entering?
    case PopDue(j) => s.pc.Draining? && IsHead(s.core, j) && s.core.jobs[j].runAt <= s.pc.now
    case ReadWait(w) => s.pc.Draining? && NoneDue(s.core, s.pc.now) && WaitIs(s.core, s.clock, w)
    case Arm => s.pc.Arming?
    case WakeByTimer => s.pc.Waiting? && s.timer.Fired?
    case WakeByTrigger => s.pc.Waiting? && s.trigger
    case Return => s.pc.Waiting? && s.shutdown
  }

  ghost function Apply<J>(s: State<J>, l: Step<J>): State<J>
    requires Enabled(s, l)
  {
    match l
    case CallSchedule(token, claims, delay, id) =>
      s.(core := Schedule(s.core, token, claims, s.clock + delay, id), trigger := true)
    case CallCancel(token) => s.(core := Cancel(s.core, token))
    case CallStop => s.(shutdown := true)
    case Tick(d) => s.(clock := s.clock + d)
    case Fire => s.(timer := Fired)
    case Lock => s.(pc := Draining(s.clock))
    case PopDue(j) =>
      s.(core := Pop(s.core, j),
         exits := s.exits + [Exit(j, s.core.jobs[j].runAt, s.clock, !s.core.jobs[j].canceled)])
    case ReadWait(w) => s.(pc := Arming(s.clock, w))
    case Arm => s.(timer := Armed(s.clock + s.pc.wait), pc := Waiting(s.pc.readAt, s.clock))
    case WakeByTimer => s.(timer := Idle, pc := Entering)
    case WakeByTrigger => s.(trigger := false, pc := Entering)
    case Return => s.(timer := Idle, pc := Stopped)
  }

  function Initial<J(==)>(clock: int): State<J> {
    State(Empty(), clock, Entering, Idle, false, false, [])
  }

  // ---------- the invariant ----------

  ghost predicate Ok<J>(s: State<J>) {
    && Inv(s.core)
    && ExitsOk(s)
    && PcOk(s)
    && WakeOk(s)
  }

  // Heap and exits partition the jobs, and the exits tell what happened to each.
  ghost predicate ExitsOk<J>(s: State<J>) {
    && (forall i :: 0 <= i < |s.exits| ==> ExitOk(s, s.exits[i]))
    && (forall i, k :: 0 <= i < k < |s.exits| ==> s.exits[i].job != s.exits[k].job)
    && (forall j :: j in s.core.jobs && j !in s.core.heap ==> Exited(s, j))
  }

  ghost predicate Exited<J>(s: State<J>, j: J) {
    exists i :: 0 <= i < |s.exits| && s.exits[i].job == j
  }

  ghost predicate ExitOk<J>(s: State<J>, e: Exit<J>) {
    && e.job in s.core.jobs && e.job !in s.core.heap
    && e.runAt == s.core.jobs[e.job].runAt <= e.at <= s.clock
    && (e.submitted <==> !s.core.jobs[e.job].canceled)
  }

  ghost predicate PcOk<J>(s: State<J>) {
    && (s.pc.Draining? ==> s.pc.now <= s.clock)
    && (s.pc.Arming? ==> s.pc.readAt <= s.clock)
    && (s.pc.Waiting? ==> s.pc.readAt <= s.pc.armedAt <= s.clock)
  }

  function Max(a: int, b: int): int {
    if a < b then b else a
  }

  // While waiting with no trigger pending, the timer has fired or is armed in time for every job.
  ghost predicate WakeOk<J>(s: State<J>) {
    && (s.pc.Arming? ==> forall j :: j in s.core.heap && j in s.core.jobs ==>
          s.pc.wait <= WaitFor(s.core.jobs[j].runAt, s.pc.readAt))
    && (s.pc.Waiting? && !s.trigger ==> s.timer.Fired? || (s.timer.Armed? && InTime(s)))
  }

  ghost predicate InTime<J>(s: State<J>)
    requires s.pc.Waiting? && s.timer.Armed?
  {
    forall j :: j in s.core.heap && j in s.core.jobs ==>
      s.timer.deadline <= Max(s.core.jobs[j].runAt, s.pc.readAt) + (s.pc.armedAt - s.pc.readAt)
  }

  lemma StepKeepsOk<J>(s: State<J>, l: Step<J>)
    requires Ok(s) && Enabled(s, l)
    ensures Ok(Apply(s, l))
  {
    if l.CallSchedule? {
      ScheduleKeepsOk(s, l);
    } else if l.CallCancel? {
      CancelKeepsOk(s, l);
    } else if l.PopDue? {
      PopKeepsInv(s.core, l.job);
      PopKeepsExits(s, l.job);
    } else {
      KeepsExits(s, Apply(s, l));
    }
  }

  lemma ScheduleKeepsOk<J>(s: State<J>, l: Step<J>)
    requires Ok(s) && l.CallSchedule? && Enabled(s, l)
    ensures Ok(Apply(s, l))
  {
    ScheduleKeepsInv(s.core, l.token, l.claims, s.clock + l.delay, l.id);
    if l.token in s.core.jobMap { assert Mapped(s.core, l.token); }
    KeepsExits(s, Apply(s, l));
  }

  lemma CancelKeepsOk<J>(s: State<J>, l: Step<J>)
    requires Ok(s) && l.CallCancel? && Enabled(s, l)
    ensures Ok(Apply(s, l))
  {
    CancelKeepsInv(s.core, l.token);
    if l.token in s.core.jobMap { assert Mapped(s.core, l.token); }
    KeepsExits(s, Apply(s, l));
  }

  // Only jobs in the heap change, and new jobs enter it.
  lemma KeepsExits<J>(s: State<J>, s': State<J>)
    requires ExitsOk(s) && s'.exits == s.exits && s.clock <= s'.clock
    requires s.core.jobs.Keys <= s'.core.jobs.Keys && s.core.heap <= s'.core.heap
    requires s'.core.jobs.Keys - s.core.jobs.Keys == s'.core.heap - s.core.heap
    requires forall j :: j in s.core.jobs && j !in s.core.heap ==> s'.core.jobs[j] == s.core.jobs[j]
    requires s.core.heap <= s.core.jobs.Keys
    ensures ExitsOk(s')
  {
    forall i | 0 <= i < |s'.exits| ensures ExitOk(s', s'.exits[i]) {
      assert ExitOk(s, s.exits[i]);
      var j := s.exits[i].job;
      assert j !in s'.core.heap - s.core.heap;
    }
    forall j | j in s'.core.jobs && j !in s'.core.heap ensures Exited(s', j) {
      assert j !in s'.core.jobs.Keys - s.core.jobs.Keys;
      assert Exited(s, j);
    }
  }

  lemma PopKeepsExits<J>(s: State<J>, j: J)
    requires Ok(s) && Enabled(s, PopDue(j))
    ensures ExitsOk(Apply(s, PopDue(j)))
  {
    var s' := Apply(s, PopDue(j));
    var n := |s.exits|;
    forall i | 0 <= i < |s'.exits| ensures ExitOk(s', s'.exits[i]) {
      if i < n { assert ExitOk(s, s.exits[i]); }
    }
    forall i, k | 0 <= i < k < |s'.exits| ensures s'.exits[i].job != s'.exits[k].job {
      assert ExitOk(s, s.exits[i]);
    }
    forall k | k in s'.core.jobs && k !in s'.core.heap ensures Exited(s', k) {
      if k == j {
        assert s'.exits[n].job == j;
      } else {
        var i :| 0 <= i < n && s.exits[i].job == k;
        assert s'.exits[i].job == k;
      }
    }
  }

  // ---------- runs ----------

  ghost predicate IsRun<J>(tr: seq<State<J>>, steps: seq<Step<J>>) {
    && |tr| == |steps| + 1
    && (exists c :: tr[0] == Initial(c))
    && forall i :: 0 <= i < |steps| ==> Moves(tr[i], steps[i], tr[i + 1])
  }

  ghost predicate Moves<J>(s: State<J>, l: Step<J>, s': State<J>) {
    Enabled(s, l) && s' == Apply(s, l)
  }

  lemma {:induction false} RunIsOk<J>(tr: seq<State<J>>, steps: seq<Step<J>>, n: nat)
    requires IsRun(tr, steps) && n < |tr|
    ensures Ok(tr[n])
  {
    if n > 0 {
      RunIsOk(tr, steps, n - 1);
      assert Moves(tr[n - 1], steps[n - 1], tr[n]);
      StepKeepsOk(tr[n - 1], steps[n - 1]);
    }
  }

  // ---------- no lost wakeup ----------

  /** In every reachable state where `run` waits and the heap is not empty, a trigger is pending,
      or the timer has fired, or it will fire by the later of the head's due time and the clock
      reading the wait was computed from, plus the time that passed between that reading and
      the arming. */
  lemma NoLostWakeup<J>(tr: seq<State<J>>, steps: seq<Step<J>>, n: nat, head: J)
    requires IsRun(tr, steps) && n < |tr|
    requires tr[n].pc.Waiting? && IsHead(tr[n].core, head)
    ensures
      var s := tr[n];
      || s.trigger
      || s.timer.Fired?
      || (s.timer.Armed? &&
          s.timer.deadline <= Max(s.core.jobs[head].runAt, s.pc.readAt) + (s.pc.armedAt - s.pc.readAt))
  {
    RunIsOk(tr, steps, n);
  }

  /** The deadline is within the later of the head's due time and the arming time itself exactly
      when no time passed between reading the clock and arming, or the head was already due. */
  lemma ArmedInTimeIff<J>(s: State<J>, w: nat, gap: nat, head: J)
    requires Ok(s) && Enabled(s, ReadWait(w)) && IsHead(s.core, head)
    ensures
      var r := Apply(s, ReadWait(w));
      var a := Apply(r.(clock := r.clock + gap), Arm);
      (a.timer.deadline <= Max(s.core.jobs[head].runAt, a.pc.armedAt)) <==>
      (gap == 0 || s.core.jobs[head].runAt <= s.clock)
  {
  }

  /** For instance: a receipt due at 5, the clock read at 0 and the timer armed at 1, for 6. */
  lemma LateTimerRun() returns (steps: seq<Step<nat>>, s: State<nat>)
    ensures Leads(Initial(0), steps, s) && IsHead(s.core, 0)
    ensures s.timer == Armed(6) && s.core.jobs[0].runAt == 5 && s.pc == Waiting(0, 1)
  {
    var first, s3 := WaitComputed();
    var s4 := s3.(clock := 1);
    s := s4.(timer := Armed(6), pc := Waiting(0, 1));
    steps := Then(Initial(0), first, s3, Tick(1), s4);
    steps := Then(Initial(0), steps, s4, Arm, s);
  }

  lemma WaitComputed() returns (steps: seq<Step<nat>>, s3: State<nat>)
    ensures Leads(Initial(0), steps, s3)
    ensures s3 == State(Core(map[0 := Job("a", "", 5, false)], {0}, map["a" := 0]), 0, Arming(0, 5), Idle, true, false, [])
  {
    var core := Core(map[0 := Job("a", "", 5, false)], {0}, map["a" := 0]);
    var s1 := State(core, 0, Entering, Idle, true, false, []);
    var s2 := s1.(pc := Draining(0));
    s3 := s1.(pc := Arming(0, 5));
    assert IsHead(core, 0) && WaitIs(core, 0, 5);
    steps := Then(Initial(0), [], Initial(0), CallSchedule("a", "", 5, 0), s1);
    steps := Then(Initial(0), steps, s1, Lock, s2);
    steps := Then(Initial(0), steps, s2, ReadWait(5), s3);
  }

  /** A job at the head whose time has come can always be brought out: some sequence of at most
      four steps of the timer and of `run`, no caller involved, takes it off the heap. */
  lemma DueHeadComesOut<J>(s: State<J>, head: J) returns (steps: seq<Step<J>>, s': State<J>)
    requires Ok(s) && s.pc.Waiting? && IsHead(s.core, head)
    requires Max(s.core.jobs[head].runAt, s.pc.readAt) + (s.pc.armedAt - s.pc.readAt) <= s.clock
    ensures |steps| <= 4 && forall l :: l in steps ==> l.Fire? || l.WakeByTimer? || l.WakeByTrigger? || l.Lock? || l.PopDue?
    ensures Leads(s, steps, s')
    ensures head !in s'.core.heap && s'.exits == s.exits + [Exit(head, s.core.jobs[head].runAt, s.clock, !s.core.jobs[head].canceled)]
  {
    if s.trigger {
      steps := [WakeByTrigger, Lock, PopDue(head)];
    } else if s.timer.Fired? {
      steps := [WakeByTimer, Lock, PopDue(head)];
    } else {
      steps := [Fire, WakeByTimer, Lock, PopDue(head)];
    }
    var fired := if steps[0].Fire? then Apply(s, Fire) else s;
    var wake := if s.trigger then WakeByTrigger else WakeByTimer;
    var woken := Apply(fired, wake);
    var locked := Apply(woken, Lock);
    s' := Apply(locked, PopDue(head));
    var path: seq<Step<J>> := [];
    if steps[0].Fire? { path := Then(s, [], s, Fire, fired); }
    path := Then(s, path, fired, wake, woken);
    path := Then(s, path, woken, Lock, locked);
    path := Then(s, path, locked, PopDue(head), s');
    assert path == steps;
  }

  ghost predicate Leads<J>(s: State<J>, steps: seq<Step<J>>, s': State<J>)
    decreases |steps|
  {
    if steps == [] then s' == s
    else Enabled(s, steps[0]) && Leads(Apply(s, steps[0]), steps[1..], s')
  }

  lemma {:induction false} HeadExists<J>(s: Core<J>, h: set<J>) returns (j: J)
    requires h != {} && h <= s.jobs.Keys
    ensures j in h && forall k :: k in h ==> s.jobs[j].runAt <= s.jobs[k].runAt
    decreases |h|
  {
    j :| j in h;
    if h != {j} {
      var k := HeadExists(s, h - {j});
      if s.jobs[k].runAt < s.jobs[j].runAt { j := k; }
    }
  }

  /** `run` is never stuck inside the mutex: while it drains, a pop or the wait computation is
      possible, and afterwards arming is. */
  lemma NeverStuckInLock<J>(s: State<J>)
    requires Ok(s) && !Unlocked(s.pc)
    ensures s.pc.Arming? ==> Enabled(s, Arm)
    ensures s.pc.Draining? ==> (exists j :: Enabled(s, PopDue(j))) || (exists w :: Enabled(s, ReadWait(w)))
  {
    if s.pc.Draining? {
      if s.core.heap == {} {
        assert Enabled(s, ReadWait(DEFAULT_WAIT));
      } else {
        var j := HeadExists(s.core, s.core.heap);
        assert IsHead(s.core, j);
        if s.core.jobs[j].runAt <= s.pc.now {
          assert Enabled(s, PopDue(j));
        } else {
          assert Enabled(s, ReadWait(WaitFor(s.core.jobs[j].runAt, s.clock)));
        }
      }
    }
  }

  // ---------- order of the pops ----------

  // No Schedule sets a due time below that of the last job that left the heap by then.
  ghost predicate SchedulesAbove<J>(tr: seq<State<J>>, steps: seq<Step<J>>)
    requires |tr| == |steps| + 1
  {
    forall i :: 0 <= i < |steps| ==> Above(tr[i], steps[i])
  }

  ghost predicate Above<J>(s: State<J>, l: Step<J>) {
    l.CallSchedule? && s.exits != [] ==> s.exits[|s.exits| - 1].runAt <= s.clock + l.delay
  }

  // No job in the heap is due before the last job that left it.
  ghost predicate Floor<J>(s: State<J>) {
    s.exits != [] ==>
      forall j :: j in s.core.heap && j in s.core.jobs ==> s.exits[|s.exits| - 1].runAt <= s.core.jobs[j].runAt
  }

  ghost predicate InOrder<J>(s: State<J>) {
    forall i, k :: 0 <= i < k < |s.exits| ==> s.exits[i].runAt <= s.exits[k].runAt
  }

  /** Over a whole run in which no Schedule goes below the last departure -- across passes, with
      reschedules in between -- jobs leave the heap in order of due time, and none before it is due. */
  lemma {:induction false} PopsAreOrdered<J>(tr: seq<State<J>>, steps: seq<Step<J>>, n: nat)
    requires IsRun(tr, steps) && SchedulesAbove(tr, steps) && n < |tr|
    ensures InOrder(tr[n]) && Floor(tr[n])
    ensures forall i :: 0 <= i < |tr[n].exits| ==> tr[n].exits[i].runAt <= tr[n].exits[i].at <= tr[n].clock
  {
    RunIsOk(tr, steps, n);
    forall i | 0 <= i < |tr[n].exits| ensures tr[n].exits[i].runAt <= tr[n].exits[i].at <= tr[n].clock {
      assert ExitOk(tr[n], tr[n].exits[i]);
    }
    if n > 0 {
      PopsAreOrdered(tr, steps, n - 1);
      RunIsOk(tr, steps, n - 1);
      assert Moves(tr[n - 1], steps[n - 1], tr[n]) && Above(tr[n - 1], steps[n - 1]);
      StepKeepsOrder(tr[n - 1], steps[n - 1]);
    }
  }

  /** Non-negative delays are enough for that. */
  lemma NonNegativeDelays<J>(tr: seq<State<J>>, steps: seq<Step<J>>)
    requires IsRun(tr, steps) && forall i :: 0 <= i < |steps| && steps[i].CallSchedule? ==> steps[i].delay >= 0
    ensures SchedulesAbove(tr, steps)
  {
    forall i | 0 <= i < |steps| ensures Above(tr[i], steps[i]) {
      RunIsOk(tr, steps, i);
      if tr[i].exits != [] { assert ExitOk(tr[i], tr[i].exits[|tr[i].exits| - 1]); }
    }
  }

  lemma StepKeepsOrder<J>(s: State<J>, l: Step<J>)
    requires Ok(s) && Enabled(s, l) && InOrder(s) && Floor(s)
    requires Above(s, l)
    ensures InOrder(Apply(s, l)) && Floor(Apply(s, l))
  {
    if l.PopDue? { PopKeepsOrder(s, l.job); } else { OrderFrame(s, Apply(s, l)); }
  }

  // Jobs that stay keep their due time, and jobs that enter are not due before the last departure.
  lemma OrderFrame<J>(s: State<J>, s': State<J>)
    requires ExitsOk(s) && InOrder(s) && Floor(s) && s'.exits == s.exits
    requires forall j :: j in s'.core.heap && j in s'.core.jobs ==>
      || (s.exits != [] ==> s'.core.jobs[j].runAt >= s.exits[|s.exits| - 1].runAt)
      || (j in s.core.heap && j in s.core.jobs && s.core.jobs[j].runAt == s'.core.jobs[j].runAt)
    ensures InOrder(s') && Floor(s')
  {
  }

  lemma PopKeepsOrder<J>(s: State<J>, j: J)
    requires Inv(s.core) && Enabled(s, PopDue(j)) && InOrder(s) && Floor(s)
    ensures InOrder(Apply(s, PopDue(j))) && Floor(Apply(s, PopDue(j)))
  {
    var s' := Apply(s, PopDue(j));
    forall i, k | 0 <= i < k < |s'.exits| ensures s'.exits[i].runAt <= s'.exits[k].runAt {
      if k == |s.exits| { assert s.exits[i].runAt <= s.exits[|s.exits| - 1].runAt; }
    }
  }

  /** One Schedule keeps the floor exactly when it does not go below it. */
  lemma ScheduleKeepsFloorIff<J>(s: State<J>, token: string, claims: Claims, delay: int, id: J)
    requires Ok(s) && Floor(s) && s.exits != [] && Enabled(s, CallSchedule(token, claims, delay, id))
    ensures Floor(Apply(s, CallSchedule(token, claims, delay, id))) <==>
            s.exits[|s.exits| - 1].runAt <= s.clock + delay
  {
    var s' := Apply(s, CallSchedule(token, claims, delay, id));
    if token in s.core.jobMap { assert Mapped(s.core, token); }
    var j := s'.core.jobMap[token];
    assert j in s'.core.heap && s'.core.jobs[j].runAt == s.clock + delay;
  }

  // Steps of `run`, the timer and the clock; no caller is involved.
  predicate OwnMove<J>(l: Step<J>) {
    !l.CallSchedule? && !l.CallCancel? && !l.CallStop?
  }

  lemma {:induction false} FloorKeepsOrder<J>(s: State<J>, steps: seq<Step<J>>, s': State<J>)
    requires Ok(s) && InOrder(s) && Floor(s) && Leads(s, steps, s') && forall l :: l in steps ==> OwnMove(l)
    ensures InOrder(s')
    decreases |steps|
  {
    if steps != [] {
      assert steps[0] in steps;
      StepKeepsOk(s, steps[0]);
      StepKeepsOrder(s, steps[0]);
      FloorKeepsOrder(Apply(s, steps[0]), steps[1..], s');
    }
  }

  ghost predicate LosesOrder<J(!new)>(s: State<J>) {
    exists steps, s' :: LeadsOutOfOrder(s, steps, s')
  }

  ghost predicate LeadsOutOfOrder<J>(s: State<J>, steps: seq<Step<J>>, s': State<J>) {
    Leads(s, steps, s') && (forall l :: l in steps ==> OwnMove(l)) && !InOrder(s')
  }

  /** The order of the departures is lost, by steps of `run`, the timer and the clock alone, exactly
      from those states in which a job in the heap is due before the last one that left. */
  lemma LosesOrderIff<J(!new)>(s: State<J>)
    requires Ok(s) && InOrder(s) && !s.pc.Stopped?
    ensures LosesOrder(s) <==> !Floor(s)
  {
    if Floor(s) {
      forall steps, s' | Leads(s, steps, s') && forall l :: l in steps ==> OwnMove(l) ensures InOrder(s') {
        FloorKeepsOrder(s, steps, s');
      }
    } else {
      var steps, s' := NoFloorLosesOrder(s);
      assert LeadsOutOfOrder(s, steps, s');
    }
  }

  lemma NoFloorLosesOrder<J>(s: State<J>) returns (steps: seq<Step<J>>, s': State<J>)
    requires Ok(s) && !Floor(s) && !s.pc.Stopped?
    ensures LeadsOutOfOrder(s, steps, s')
  {
    var head := HeadExists(s.core, s.core.heap);
    assert ExitOk(s, s.exits[|s.exits| - 1]);
    match s.pc
    case Entering => steps, s' := LosesOrderFromEntering(s, head);
    case Draining(_) => steps, s' := LosesOrderFromDraining(s, head);
    case Arming(_, _) => steps, s' := LosesOrderFromArming(s, head);
    case Waiting(_, _) => steps, s' := LosesOrderFromWaiting(s, head);
  }

  // The head of the heap is due before the last departure, hence before now.
  ghost predicate Overdue<J>(s: State<J>, head: J) {
    && IsHead(s.core, head) && s.exits != []
    && s.core.jobs[head].runAt < s.exits[|s.exits| - 1].runAt <= s.clock
  }

  lemma Prepend<J>(s: State<J>, l: Step<J>, rest: seq<Step<J>>, s': State<J>)
    requires Enabled(s, l) && OwnMove(l) && LeadsOutOfOrder(Apply(s, l), rest, s')
    ensures LeadsOutOfOrder(s, [l] + rest, s')
  {
    assert ([l] + rest)[1..] == rest;
  }

  lemma PopLosesOrder<J>(s: State<J>, head: J)
    requires Ok(s) && Overdue(s, head) && Enabled(s, PopDue(head))
    ensures LeadsOutOfOrder(s, [PopDue(head)], Apply(s, PopDue(head)))
  {
    var s', n := Apply(s, PopDue(head)), |s.exits|;
    assert s'.exits[n].runAt < s'.exits[n - 1].runAt;
    assert [PopDue(head)][1..] == [] && Leads(s', [], s');
  }

  lemma LosesOrderFromEntering<J>(s: State<J>, head: J) returns (steps: seq<Step<J>>, s': State<J>)
    requires Ok(s) && Overdue(s, head) && s.pc.Entering?
    ensures LeadsOutOfOrder(s, steps, s')
  {
    var m := Apply(s, Lock);
    StepKeepsOk(s, Lock);
    PopLosesOrder(m, head);
    s' := Apply(m, PopDue(head));
    steps := [Lock] + [PopDue(head)];
    Prepend(s, Lock, [PopDue(head)], s');
  }

  lemma LosesOrderFromDraining<J>(s: State<J>, head: J) returns (steps: seq<Step<J>>, s': State<J>)
    requires Ok(s) && Overdue(s, head) && s.pc.Draining?
    ensures LeadsOutOfOrder(s, steps, s')
  {
    if s.core.jobs[head].runAt <= s.pc.now {
      PopLosesOrder(s, head);
      steps, s' := [PopDue(head)], Apply(s, PopDue(head));
    } else {
      var l: Step<J> := ReadWait(WaitFor(s.core.jobs[head].runAt, s.clock));
      assert Enabled(s, l);
      StepKeepsOk(s, l);
      var rest;
      rest, s' := LosesOrderFromArming(Apply(s, l), head);
      steps := [l] + rest;
      Prepend(s, l, rest, s');
    }
  }

  lemma LosesOrderFromArming<J>(s: State<J>, head: J) returns (steps: seq<Step<J>>, s': State<J>)
    requires Ok(s) && Overdue(s, head) && s.pc.Arming?
    ensures LeadsOutOfOrder(s, steps, s')
  {
    StepKeepsOk(s, Arm);
    var rest;
    rest, s' := LosesOrderFromWaiting(Apply(s, Arm), head);
    steps := [Arm] + rest;
    Prepend(s, Arm, rest, s');
  }

  lemma LosesOrderFromWaiting<J>(s: State<J>, head: J) returns (steps: seq<Step<J>>, s': State<J>)
    requires Ok(s) && Overdue(s, head) && s.pc.Waiting?
    ensures LeadsOutOfOrder(s, steps, s')
  {
    var due := Max(s.core.jobs[head].runAt, s.pc.readAt) + (s.pc.armedAt - s.pc.readAt);
    var l: Step<J> := Tick(if due > s.clock then due - s.clock else 0);
    var m := Apply(s, l);
    StepKeepsOk(s, l);
    var rest;
    rest, s' := DueHeadComesOut(m, head);
    var n := |s.exits|;
    assert s'.exits[n].runAt < s'.exits[n - 1].runAt;
    steps := [l] + rest;
    Prepend(s, l, rest, s');
  }

  /** With a negative delay the order is lost: a receipt due at -5 leaves after one due at 0. */
  lemma NegativeDelayRun() returns (steps: seq<Step<nat>>, s: State<nat>)
    ensures Leads(Initial(0), steps, s) && !InOrder(s)
  {
    var first, s3 := FirstReceipt();
    var s4 := s3.(pc := Arming(0, DEFAULT_WAIT));
    var s5 := s4.(pc := Waiting(0, 0), timer := Armed(DEFAULT_WAIT));
    var s6 := s5.(core := Core(s5.core.jobs[1 := Job("b", "", -5, false)], {1}, map["b" := 1]));
    steps := Then(Initial(0), first, s3, ReadWait(DEFAULT_WAIT), s4);
    steps := Then(Initial(0), steps, s4, Arm, s5);
    steps := Then(Initial(0), steps, s5, CallSchedule("b", "", -5, 1), s6);
    steps, s := SecondReceipt(steps, s6);
    assert s.exits[0].runAt == 0 && s.exits[1].runAt == -5;
  }

  lemma FirstReceipt() returns (steps: seq<Step<nat>>, s: State<nat>)
    ensures Leads(Initial(0), steps, s)
    ensures s == State(Core(map[0 := Job("a", "", 0, false)], {}, map[]), 0, Draining(0), Idle, true, false, [Exit(0, 0, 0, true)])
  {
    var a := Job("a", "", 0, false);
    var s1 := State(Core(map[0 := a], {0}, map["a" := 0]), 0, Entering, Idle, true, false, []);
    var s2 := s1.(pc := Draining(0));
    s := s2.(core := Core(map[0 := a], {}, map[]), exits := [Exit(0, 0, 0, true)]);
    assert Pop(s2.core, 0) == s.core;
    assert Mapped(s1.core, "a");
    steps := Then(Initial(0), [], Initial(0), CallSchedule("a", "", 0, 0), s1);
    steps := Then(Initial(0), steps, s1, Lock, s2);
    steps := Then(Initial(0), steps, s2, PopDue(0), s);
  }

  lemma SecondReceipt(steps0: seq<Step<nat>>, s6: State<nat>) returns (steps: seq<Step<nat>>, s: State<nat>)
    requires Leads(Initial(0), steps0, s6)
    requires s6.core.heap == {1} && s6.core.jobMap == map["b" := 1]
    requires 1 in s6.core.jobs && s6.core.jobs[1] == Job("b", "", -5, false)
    requires s6.pc.Waiting? && s6.trigger && s6.clock == 0
    ensures Leads(Initial(0), steps, s) && s.exits == s6.exits + [Exit(1, -5, 0, true)]
  {
    var s7 := s6.(pc := Entering, trigger := false);
    var s8 := s7.(pc := Draining(0));
    assert Mapped(s6.core, "b");
    s := s8.(core := Pop(s8.core, 1), exits := s6.exits + [Exit(1, -5, 0, true)]);
    steps := Then(Initial(0), steps0, s6, WakeByTrigger, s7);
    steps := Then(Initial(0), steps, s7, Lock, s8);
    steps := Then(Initial(0), steps, s8, PopDue(1), s);
  }

  lemma {:induction false} Then<J>(s: State<J>, steps: seq<Step<J>>, m: State<J>, l: Step<J>, s': State<J>)
    returns (longer: seq<Step<J>>)
    requires Leads(s, steps, m) && Moves(m, l, s')
    ensures longer == steps + [l] && Leads(s, longer, s')
    decreases |steps|
  {
    longer := steps + [l];
    if steps == [] {
      assert longer[1..] == [] && Leads(s', [], s');
    } else {
      var rest := Then(Apply(s, steps[0]), steps[1..], m, l, s');
      assert longer[1..] == rest;
    }
  }

  // ---------- conservation ----------

  function Count<J>(exits: seq<Exit<J>>, submitted: bool): nat {
    if exits == [] then 0
    else Count(exits[..|exits| - 1], submitted) + if exits[|exits| - 1].submitted == submitted then 1 else 0
  }

  /** Every job created is in the heap, or was submitted, or was dropped as cancelled -- and
      only one of these, once. */
  lemma Conservation<J>(tr: seq<State<J>>, steps: seq<Step<J>>, n: nat)
    requires IsRun(tr, steps) && n < |tr|
    ensures |tr[n].core.jobs| == |tr[n].core.heap| + Count(tr[n].exits, true) + Count(tr[n].exits, false)
    ensures forall i, k :: 0 <= i < k < |tr[n].exits| ==> tr[n].exits[i].job != tr[n].exits[k].job
    ensures forall i :: 0 <= i < |tr[n].exits| ==> tr[n].exits[i].job !in tr[n].core.heap
  {
    RunIsOk(tr, steps, n);
    var s := tr[n];
    forall i | 0 <= i < |s.exits| ensures s.exits[i].job !in s.core.heap { assert ExitOk(s, s.exits[i]); }
    CountBoth(s.exits);
    var gone := ExitedSet(s.exits);
    ExitedSetSize(s.exits);
    assert s.core.jobs.Keys == s.core.heap + gone by {
      forall j | j in s.core.jobs && j !in s.core.heap ensures j in gone { assert Exited(s, j); }
      forall j | j in gone ensures j in s.core.jobs {
        var i :| 0 <= i < |s.exits| && s.exits[i].job == j;
        assert ExitOk(s, s.exits[i]);
      }
    }
    assert s.core.heap !! gone;
  }

  ghost function ExitedSet<J>(exits: seq<Exit<J>>): set<J> {
    set i | 0 <= i < |exits| :: exits[i].job
  }

  lemma {:induction false} ExitedSetSize<J>(exits: seq<Exit<J>>)
    requires forall i, k :: 0 <= i < k < |exits| ==> exits[i].job != exits[k].job
    ensures |ExitedSet(exits)| == |exits|
  {
    if exits != [] {
      var front, last := exits[..|exits| - 1], exits[|exits| - 1];
      ExitedSetSize(front);
      forall j | j in ExitedSet(exits) ensures j in ExitedSet(front) + {last.job} {
        var i :| 0 <= i < |exits| && exits[i].job == j;
        if i < |front| { assert front[i].job == j; }
      }
      forall j | j in ExitedSet(front) ensures j in ExitedSet(exits) {
        var i :| 0 <= i < |front| && front[i].job == j;
        assert exits[i].job == j;
      }
      assert ExitedSet(exits) == ExitedSet(front) + {last.job};
      assert last.job !in ExitedSet(front);
    }
  }

  lemma {:induction false} CountBoth<J>(exits: seq<Exit<J>>)
    ensures Count(exits, true) + Count(exits, false) == |exits|
  {
    if exits != [] { CountBoth(exits[..|exits| - 1]); }
  }

  /** A job for which Cancel returned true stays cancelled and is never submitted, whatever is
      scheduled for its token afterwards. */
  lemma {:induction false} CancelIsFinal<J>(tr: seq<State<J>>, steps: seq<Step<J>>, i: nat, n: nat)
    requires IsRun(tr, steps) && i < n < |tr|
    requires steps[i].CallCancel? && steps[i].token in tr[i].core.jobMap
    ensures
      var j := tr[i].core.jobMap[steps[i].token];
      && j in tr[n].core.jobs && tr[n].core.jobs[j].canceled
      && forall k :: 0 <= k < |tr[n].exits| && tr[n].exits[k].job == j ==> !tr[n].exits[k].submitted
    decreases n
  {
    var j := tr[i].core.jobMap[steps[i].token];
    RunIsOk(tr, steps, n);
    RunIsOk(tr, steps, n - 1);
    var s, l := tr[n - 1], steps[n - 1];
    assert Moves(s, l, tr[n]);
    assert Moves(tr[i], steps[i], tr[i + 1]);
    if n - 1 == i {
      assert Mapped(s.core, l.token);
    } else {
      CancelIsFinal(tr, steps, i, n - 1);
      if l.CallSchedule? && l.token in s.core.jobMap { assert Mapped(s.core, l.token); }
    }
    forall k | 0 <= k < |tr[n].exits| && tr[n].exits[k].job == j ensures !tr[n].exits[k].submitted {
      assert ExitOk(tr[n], tr[n].exits[k]);
    }
  }

  // ---------- refinement over runs ----------

  // No token is scheduled while a cancelled job of that token is still in the heap.
  ghost predicate NoReuse<J>(tr: seq<State<J>>, steps: seq<Step<J>>)
    requires |tr| == |steps| + 1
  {
    forall i :: 0 <= i < |steps| && steps[i].CallSchedule? ==> NoTombstone(tr[i].core, steps[i].token)
  }

  lemma StepKeepsSynced<J>(s: State<J>, l: Step<J>)
    requires Inv(s.core) && Synced(s.core) && Clean(s.core) && Enabled(s, l)
    requires l.CallSchedule? ==> NoTombstone(s.core, l.token)
    ensures Synced(Apply(s, l).core) && Clean(Apply(s, l).core)
  {
    if l.CallSchedule? {
      ScheduleKeepsSynced(s.core, l.token, l.claims, s.clock + l.delay, l.id);
      ScheduleKeepsCleanIff(s.core, l.token, l.claims, s.clock + l.delay, l.id);
    } else if l.CallCancel? {
      CancelKeepsInv(s.core, l.token);
    } else if l.PopDue? {
      PopKeepsSyncedIff(s.core, l.job);
      PopKeepsClean(s.core, l.job);
    }
  }

  lemma {:induction false} RunIsSynced<J>(tr: seq<State<J>>, steps: seq<Step<J>>, n: nat)
    requires IsRun(tr, steps) && NoReuse(tr, steps) && n < |tr|
    ensures Inv(tr[n].core) && Synced(tr[n].core) && Clean(tr[n].core)
  {
    RunIsOk(tr, steps, n);
    if n > 0 {
      RunIsSynced(tr, steps, n - 1);
      assert Moves(tr[n - 1], steps[n - 1], tr[n]);
      StepKeepsSynced(tr[n - 1], steps[n - 1]);
    }
  }

  // The step on the plain table that a step of the machine amounts to.
  ghost predicate TableStep<J>(s: State<J>, l: Step<J>, a: Table, a': Table) {
    match l
    case CallSchedule(token, claims, delay, _) => a' == a[token := Entry(s.clock + delay, claims)]
    case CallCancel(token) => a' == a - {token} && (token in s.core.jobMap <==> token in a)
    case PopDue(j) =>
      && j in s.core.jobs
      && var job := s.core.jobs[j];
         if job.canceled then a' == a
         else job.token in a && a[job.token] == Entry(job.runAt, job.claims) && a' == a - {job.token}
    case _ => a' == a
  }

  ghost predicate Refines<J>(s: State<J>, l: Step<J>, s': State<J>) {
    Inv(s.core) && Inv(s'.core) && TableStep(s, l, Abs(s.core), Abs(s'.core))
  }

  // The step pops a cancelled job whose token has been scheduled again.
  ghost predicate Forgets<J>(s: State<J>, l: Step<J>) {
    l.PopDue? && Tombstone(s.core, l.job) && s.core.jobs[l.job].token in s.core.jobMap
  }

  /** Every step of a run is the corresponding step on the plain table -- Schedule overwrites, Cancel
      removes what it reports, a live pop emits and removes the entry it names, and nothing else
      changes the table -- exactly if no step pops a tombstone whose token is mapped again. */
  lemma RunRefinesIff<J>(tr: seq<State<J>>, steps: seq<Step<J>>)
    requires IsRun(tr, steps)
    ensures (forall i :: 0 <= i < |steps| ==> Refines(tr[i], steps[i], tr[i + 1]))
       <==> (forall i :: 0 <= i < |steps| ==> !Forgets(tr[i], steps[i]))
  {
    if i :| 0 <= i < |steps| && Forgets(tr[i], steps[i]) {
      assert Moves(tr[i], steps[i], tr[i + 1]);
      ForgettingIsNoTableStep(tr[i], steps[i]);
    } else {
      forall i | 0 <= i < |steps| ensures Refines(tr[i], steps[i], tr[i + 1]) {
        SyncedUnlessForgotten(tr, steps, i);
        assert Moves(tr[i], steps[i], tr[i + 1]);
        StepRefines(tr[i], steps[i]);
      }
    }
  }

  lemma ForgettingIsNoTableStep<J>(s: State<J>, l: Step<J>)
    requires Enabled(s, l) && Forgets(s, l)
    ensures !Refines(s, l, Apply(s, l))
  {
    var t := s.core.jobs[l.job].token;
    assert t !in Pop(s.core, l.job).jobMap;
  }

  lemma {:induction false} SyncedUnlessForgotten<J>(tr: seq<State<J>>, steps: seq<Step<J>>, n: nat)
    requires IsRun(tr, steps) && n < |tr| && forall i :: 0 <= i < |steps| ==> !Forgets(tr[i], steps[i])
    ensures Inv(tr[n].core) && Synced(tr[n].core)
  {
    RunIsOk(tr, steps, n);
    if n > 0 {
      SyncedUnlessForgotten(tr, steps, n - 1);
      assert Moves(tr[n - 1], steps[n - 1], tr[n]);
      StepKeepsAgreement(tr[n - 1], steps[n - 1]);
    }
  }

  lemma StepKeepsAgreement<J>(s: State<J>, l: Step<J>)
    requires Inv(s.core) && Synced(s.core) && Enabled(s, l) && !Forgets(s, l)
    ensures Synced(Apply(s, l).core)
  {
    if l.CallSchedule? {
      ScheduleKeepsSynced(s.core, l.token, l.claims, s.clock + l.delay, l.id);
    } else if l.CallCancel? {
      CancelKeepsInv(s.core, l.token);
    } else if l.PopDue? {
      PopKeepsSyncedIff(s.core, l.job);
    }
  }

  /** That is so in particular if no token is scheduled while its tombstone is in the heap. */
  lemma NoReuseRefines<J>(tr: seq<State<J>>, steps: seq<Step<J>>, i: nat)
    requires IsRun(tr, steps) && NoReuse(tr, steps) && i < |steps|
    ensures !Forgets(tr[i], steps[i]) && Refines(tr[i], steps[i], tr[i + 1])
  {
    forall k | 0 <= k < |steps| ensures !Forgets(tr[k], steps[k]) { RunIsSynced(tr, steps, k); }
    RunRefinesIff(tr, steps);
  }

  lemma StepRefines<J>(s: State<J>, l: Step<J>)
    requires Inv(s.core) && Synced(s.core) && Enabled(s, l) && !Forgets(s, l)
    ensures Refines(s, l, Apply(s, l))
  {
    if l.CallSchedule? {
      ScheduleStepRefines(s, l);
    } else if l.CallCancel? {
      CancelStepRefines(s, l);
    } else if l.PopDue? {
      PopStepRefines(s, l);
    } else {
      assert Apply(s, l).core == s.core;
    }
  }

  lemma ScheduleStepRefines<J>(s: State<J>, l: Step<J>)
    requires Inv(s.core) && l.CallSchedule? && Enabled(s, l)
    ensures Inv(Apply(s, l).core) && TableStep(s, l, Abs(s.core), Abs(Apply(s, l).core))
  {
    ScheduleRefines(s.core, l.token, l.claims, s.clock + l.delay, l.id);
  }

  lemma CancelStepRefines<J>(s: State<J>, l: Step<J>)
    requires Inv(s.core) && l.CallCancel? && Enabled(s, l)
    ensures Inv(Apply(s, l).core) && TableStep(s, l, Abs(s.core), Abs(Apply(s, l).core))
  {
    CancelRefines(s.core, l.token);
  }

  lemma PopStepRefines<J>(s: State<J>, l: Step<J>)
    requires Inv(s.core) && Synced(s.core) && !Forgets(s, l) && l.PopDue? && Enabled(s, l)
    ensures Inv(Apply(s, l).core) && TableStep(s, l, Abs(s.core), Abs(Apply(s, l).core))
  {
    PopRefines(s.core, l.job);
  }

  lemma PopRefines<J>(s: Core<J>, j: J)
    requires Inv(s) && Synced(s) && j in s.heap && !(Tombstone(s, j) && s.jobs[j].token in s.jobMap)
    ensures Inv(Pop(s, j))
    ensures s.jobs[j].canceled ==> Abs(Pop(s, j)) == Abs(s)
    ensures !s.jobs[j].canceled ==>
      && s.jobs[j].token in Abs(s)
      && Abs(s)[s.jobs[j].token] == Entry(s.jobs[j].runAt, s.jobs[j].claims)
      && Abs(Pop(s, j)) == Abs(s) - {s.jobs[j].token}
  {
    PopKeepsInv(s, j);
    var s' := Pop(s, j);
    assert s.jobs[j].canceled ==> Tombstone(s, j);
    assert !s.jobs[j].canceled ==> Live(s, j);
    forall t | t in s'.jobMap ensures Abs(s')[t] == Abs(s)[t] { assert Mapped(s, t) && Mapped(s', t); }
  }

  // From the moment `run` locks at i until k it stays in its drain loop.
  ghost predicate DrainPass<J>(tr: seq<State<J>>, steps: seq<Step<J>>, i: nat, k: nat)
    requires |tr| == |steps| + 1
  {
    && i < k < |tr| && steps[i].Lock?
    && forall m :: i < m <= k ==> tr[m].pc.Draining?
  }

  function ExitJobs<J>(exits: seq<Exit<J>>): seq<J> {
    seq(|exits|, i requires 0 <= i < |exits| => exits[i].job)
  }

  /** Whatever is interleaved with it, a drain pass performs on the core exactly what the drain
      loop of the scheduler object performs. */
  lemma {:induction false} PassPops<J>(tr: seq<State<J>>, steps: seq<Step<J>>, i: nat, k: nat)
    requires IsRun(tr, steps) && DrainPass(tr, steps, i, k)
    ensures tr[k].pc == Draining(tr[i].clock)
    ensures tr[i].exits <= tr[k].exits
    ensures Pops(tr[i].core, tr[i].clock, ExitJobs(tr[k].exits[|tr[i].exits|..]), tr[k].core)
    decreases k
  {
    assert Moves(tr[i], steps[i], tr[i + 1]);
    var c, n := tr[i].core, |tr[i].exits|;
    if k == i + 1 {
      assert ExitJobs(tr[k].exits[n..]) == [];
    } else {
      PassPops(tr, steps, i, k - 1);
      var s, l := tr[k - 1], steps[k - 1];
      assert Moves(s, l, tr[k]);
      if l.PopDue? {
        PopsAppend(c, tr[i].clock, ExitJobs(s.exits[n..]), s.core, l.job);
        assert ExitJobs(tr[k].exits[n..]) == ExitJobs(s.exits[n..]) + [l.job];
      }
    }
  }

  /** When a pass that began at clock reading `now`, from a state where live jobs and map agree,
      comes to its end, it has submitted exactly the entries due at `now`; and what is left of
      the table is exactly the rest if and only if no token had a due tombstone beside a mapped
      job not yet due. */
  lemma PassEmitsDueEntries<J>(tr: seq<State<J>>, steps: seq<Step<J>>, i: nat, k: nat)
    requires IsRun(tr, steps) && DrainPass(tr, steps, i, k)
    requires k < |steps| && steps[k].ReadWait?
    requires Inv(tr[i].core) && Synced(tr[i].core)
    ensures Inv(tr[k].core) && tr[i].exits <= tr[k].exits
    ensures
      var popped, now := ExitJobs(tr[k].exits[|tr[i].exits|..]), tr[i].clock;
      && (forall j :: j in popped ==> j in tr[i].core.jobs)
      && Submitted(tr[i].core, popped) == Emitted(Abs(tr[i].core), now)
      && (Abs(tr[k].core) == Remaining(Abs(tr[i].core), now) <==> DrainSafe(tr[i].core, now))
  {
    PassPops(tr, steps, i, k);
    RunIsOk(tr, steps, k);
    assert Moves(tr[k], steps[k], tr[k + 1]);
    var popped, now := ExitJobs(tr[k].exits[|tr[i].exits|..]), tr[i].clock;
    assert Drains(tr[i].core, now, popped, tr[k].core);
    DrainEmits(tr[i].core, now, popped, tr[k].core);
    DrainRefinesIff(tr[i].core, now, popped, tr[k].core);
  }

  /** Without reuse of a token over its tombstone both conditions hold throughout the run. */
  lemma NoReuseIsSafe<J>(tr: seq<State<J>>, steps: seq<Step<J>>, i: nat, now: int)
    requires IsRun(tr, steps) && NoReuse(tr, steps) && i < |tr|
    ensures Inv(tr[i].core) && Synced(tr[i].core) && DrainSafe(tr[i].core, now)
  {
    RunIsSynced(tr, steps, i);
  }
}
