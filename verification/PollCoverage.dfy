/**
 What one contract has seen of its chain, in every interleaving with the others: its own batches are
 those of its polls, and each poll is determined by the cursor it read, the head it saw and the queries
 that failed, whatever becomes of the shared cursor meanwhile.
 */
module PollCoverage {
  import opened EventStore
  import opened Polling
  import opened PollingMachine

  // The first block of the batch that block b belongs to, in a poll that read `cursor`.
  function BatchStart(cursor: nat, b: nat): nat
    requires cursor < b
  {
    cursor + 1 + (b - cursor - 1) / BATCH * BATCH
  }

  // A poll fetches block b: it lies above the cursor read, not above the head, and its query succeeds.
  predicate Sees(p: Poll, b: nat) {
    p.cursor < b <= p.head && BatchStart(p.cursor, b) !in p.failed
  }

  ghost predicate SomeSees(polls: seq<Poll>, b: nat) {
    exists k :: 0 <= k < |polls| && Sees(polls[k], b)
  }

  // The same when the last poll has got no further than below block `from`.
  ghost predicate SomeSaw(polls: seq<Poll>, from: nat, b: nat) {
    polls != [] && (SomeSees(polls[..|polls| - 1], b) || (b < from && Sees(polls[|polls| - 1], b)))
  }

  // A poll in progress stands at the beginning of one of its batches; it failed only in earlier ones.
  predicate Stands(polls: seq<Poll>, from: nat, head: nat, skipped: bool) {
    && polls != []
    && var p := polls[|polls| - 1];
       && (skipped <==> p.failed != {})
       && p.head == head && p.cursor < from <= head && (from - p.cursor - 1) % BATCH == 0
       && forall f :: f in p.failed ==> f < from
  }

  // What contract c has fetched and recorded so far is what its polls saw so far.
  ghost predicate Tells(s: State, c: string) {
    var polls := PollsOf(s, c);
    match Of(s, c)
    case Looping(from, head, skipped) =>
      Stands(polls, from, head, skipped) && forall b: nat :: Covered(DoneBy(s.done, c), b) <==> SomeSaw(polls, from, b)
    case Fetched(from, to, head, skipped) =>
      && Stands(polls, from, head, skipped) && to == (if from + BATCH - 1 > head then head else from + BATCH - 1)
      && forall b: nat :: Covered(DoneBy(s.done, c), b) <==> SomeSaw(polls, from, b)
    case _ =>
      forall b: nat :: Covered(DoneBy(s.done, c), b) <==> SomeSees(polls, b)
  }

  lemma SomeSeesSplit(polls: seq<Poll>, p: Poll, b: nat)
    ensures SomeSees(polls + [p], b) <==> SomeSees(polls, b) || Sees(p, b)
  {
    var all := polls + [p];
    if SomeSees(polls, b) {
      var k :| 0 <= k < |polls| && Sees(polls[k], b);
      assert all[k] == polls[k];
    }
    if Sees(p, b) { assert all[|polls|] == p; }
  }

  // The batch that starts at `from` holds exactly the five blocks from there on.
  lemma StartIs(cursor: nat, from: nat, b: nat)
    requires cursor < from && cursor < b && (from - cursor - 1) % BATCH == 0
    ensures BatchStart(cursor, b) <= b
    ensures BatchStart(cursor, b) == from <==> from <= b < from + BATCH
  {
    var k, j := (from - cursor - 1) / BATCH, (b - cursor - 1) / BATCH;
    assert from == cursor + 1 + k * BATCH;
    assert j * BATCH <= b - cursor - 1 < j * BATCH + BATCH;
    if from <= b < from + BATCH { assert j == k; }
  }

  lemma SawAll(polls: seq<Poll>, from: nat, b: nat)
    requires polls != [] && polls[|polls| - 1].head < from
    ensures SomeSaw(polls, from, b) <==> SomeSees(polls, b)
  {
    var n := |polls| - 1;
    assert polls == polls[..n] + [polls[n]];
    SomeSeesSplit(polls[..n], polls[n], b);
  }

  // ---------- the steps ----------

  lemma OthersDoNotMatter(s: State, t: Step, s': State, c: string)
    requires Moves(s, t, s') && t.contract != c
    ensures Of(s', c) == Of(s, c) && PollsOf(s', c) == PollsOf(s, c) && DoneBy(s'.done, c) == DoneBy(s.done, c)
  {
    if t.move.Store? {
      WindowsAppend(s.done, Batch(t.contract, Window(Of(s, t.contract).from, Of(s, t.contract).to)), c);
    }
  }

  lemma LoadTells(s: State, t: Step, s': State)
    requires Moves(s, t, s') && t.move.Load? && Tells(s, t.contract)
    ensures Tells(s', t.contract)
  {
    var c, head := t.contract, Of(s, t.contract).head;
    var polls, p := PollsOf(s, c), Poll(s.cursor, head, {});
    assert PollsOf(s', c) == polls + [p] && (polls + [p])[..|polls|] == polls;
    forall b: nat ensures SomeSees(polls + [p], b) <==> SomeSees(polls, b) || Sees(p, b) {
      SomeSeesSplit(polls, p, b);
    }
  }

  // A batch is behind: its blocks count as seen exactly if its query did not fail.
  lemma BatchBehind(polls: seq<Poll>, from: nat, head: nat, skipped: bool, b: nat)
    requires Stands(polls, from, head, skipped)
    ensures SomeSaw(polls, from + BATCH, b) <==> SomeSaw(polls, from, b) || (from <= b < from + BATCH && b <= head)
    ensures SomeSaw(Failing(polls, from), from + BATCH, b) <==> SomeSaw(polls, from, b)
  {
    var n, p := |polls| - 1, polls[|polls| - 1];
    assert Failing(polls, from)[..n] == polls[..n];
    if p.cursor < b { StartIs(p.cursor, from, b); }
  }

  lemma FetchTells(s: State, t: Step, s': State)
    requires Moves(s, t, s') && t.move.Fetch? && Tells(s, t.contract)
    ensures Tells(s', t.contract)
  {
    if t.move == Fetch(false) { FailTells(s, t, s'); }
  }

  lemma FailTells(s: State, t: Step, s': State)
    requires Moves(s, t, s') && t.move == Fetch(false) && Tells(s, t.contract)
    ensures Tells(s', t.contract)
  {
    var c, p := t.contract, Of(s, t.contract);
    var polls := PollsOf(s, c);
    var failing, next := Failing(polls, p.from), p.from + BATCH;
    assert PollsOf(s', c) == failing;
    forall b: nat ensures SomeSaw(failing, next, b) <==> Covered(DoneBy(s.done, c), b) {
      BatchBehind(polls, p.from, p.head, p.skipped, b);
    }
    if next > p.head {
      forall b: nat ensures SomeSaw(failing, next, b) <==> SomeSees(failing, b) { SawAll(failing, next, b); }
    }
  }

  lemma StoreTells(s: State, t: Step, s': State)
    requires Moves(s, t, s') && t.move.Store? && Tells(s, t.contract)
    ensures Tells(s', t.contract)
  {
    var c, p := t.contract, Of(s, t.contract);
    var polls, w, next := PollsOf(s, c), Window(p.from, p.to), p.from + BATCH;
    WindowsAppend(s.done, Batch(c, w), c);
    OneWindow(w);
    forall b: nat ensures Covered(DoneBy(s'.done, c), b) <==> SomeSaw(polls, next, b) {
      CoveredConcat(DoneBy(s.done, c), [w], b);
      BatchBehind(polls, p.from, p.head, p.skipped, b);
    }
    if next > p.head {
      forall b: nat ensures SomeSaw(polls, next, b) <==> SomeSees(polls, b) { SawAll(polls, next, b); }
    }
  }

  lemma StepTells(s: State, t: Step, s': State, c: string)
    requires Moves(s, t, s') && Tells(s, c)
    ensures Tells(s', c)
  {
    if t.contract != c {
      OthersDoNotMatter(s, t, s', c);
    } else {
      match t.move
      case See(_) =>
      case Load => LoadTells(s, t, s');
      case Fetch(_) => FetchTells(s, t, s');
      case Store => StoreTells(s, t, s');
    }
  }

  lemma {:induction false} RunTells(initial: nat, states: seq<State>, steps: seq<Step>, i: nat, c: string)
    requires Run(initial, states, steps) && i < |states|
    ensures Tells(states[i], c)
  {
    if i > 0 {
      RunTells(initial, states, steps, i - 1, c);
      assert Moves(states[i - 1], steps[i - 1], states[i]);
      StepTells(states[i - 1], steps[i - 1], states[i], c);
    }
  }

  // ---------- whole runs ----------

  // No poll of the contract is under way.
  predicate Resting(s: State, c: string) {
    Of(s, c).Idle? || Of(s, c).Seen?
  }

  /** In every interleaving, between two polls of a contract: it has seen a block exactly if one of its
      polls read a cursor below the block, saw a head not below it, and the query of the block's batch
      succeeded. Who moved the cursor in the meantime does not matter. */
  lemma BlockSeenIff(initial: nat, states: seq<State>, steps: seq<Step>, i: nat, c: string, b: nat)
    requires Run(initial, states, steps) && i < |states| && Resting(states[i], c)
    ensures Covered(DoneBy(states[i].done, c), b) <==> SomeSees(PollsOf(states[i], c), b)
  {
    RunTells(initial, states, steps, i, c);
  }

  // Where a gap can begin: right above the initial block, right above the head of a poll, or at the
  // first block of a batch whose query failed.
  predicate GapCandidate(initial: nat, polls: seq<Poll>, b: nat) {
    b == initial + 1 || exists k :: 0 <= k < |polls| && (b == polls[k].head + 1 || b in polls[k].failed)
  }

  ghost predicate NoGapBegins(initial: nat, polls: seq<Poll>, high: nat) {
    forall b: nat :: initial < b <= high && GapCandidate(initial, polls, b) ==> SomeSees(polls, b)
  }

  lemma SeesNext(initial: nat, polls: seq<Poll>, b: nat)
    requires SomeSees(polls, b) && !GapCandidate(initial, polls, b + 1)
    ensures SomeSees(polls, b + 1)
  {
    var k :| 0 <= k < |polls| && Sees(polls[k], b);
    var first, next := BatchStart(polls[k].cursor, b), BatchStart(polls[k].cursor, b + 1);
    assert b + 1 != polls[k].head + 1;
    if next != first {
      assert next == b + 1;
      assert b + 1 !in polls[k].failed;
    }
    assert Sees(polls[k], b + 1);
  }

  lemma {:induction false} CandidatesDecide(initial: nat, polls: seq<Poll>, b: nat)
    requires initial < b
    requires NoGapBegins(initial, polls, b)
    ensures SomeSees(polls, b)
  {
    if !GapCandidate(initial, polls, b) {
      CandidatesDecide(initial, polls, b - 1);
      SeesNext(initial, polls, b - 1);
    }
  }

  /** So between two polls a contract has seen everything up to the cursor exactly if no gap begins at
      the few blocks where one can: above the initial block, above the heads its polls saw, and at the
      batches whose query failed. */
  lemma SeesAllByPollsIff(initial: nat, states: seq<State>, steps: seq<Step>, i: nat, c: string)
    requires Run(initial, states, steps) && i < |states| && Resting(states[i], c)
    ensures SeesAll(initial, states[i], c)
       <==> NoGapBegins(initial, PollsOf(states[i], c), states[i].cursor)
  {
    var s, polls := states[i], PollsOf(states[i], c);
    RunTells(initial, states, steps, i, c);
    if NoGapBegins(initial, polls, s.cursor) {
      forall b | initial < b <= s.cursor ensures Covered(DoneBy(s.done, c), b) {
        CandidatesDecide(initial, polls, b);
      }
    }
  }

  ghost predicate SeenBy(done: seq<Batch>, c: string, b: int) {
    Covered(DoneBy(done, c), b)
  }

  lemma OneMoreBatch(done: seq<Batch>, last: Batch, c: string, b: int)
    ensures Covered(WindowsOf(done + [last]), b) <==> Covered(WindowsOf(done), b) || Covered([last.window], b)
    ensures SeenBy(done + [last], c, b) <==> SeenBy(done, c, b) || (last.contract == c && Covered([last.window], b))
  {
    WindowsAppend(done, last, c);
    CoveredConcat(WindowsOf(done), [last.window], b);
    CoveredConcat(DoneBy(done, c), if last.contract == c then [last.window] else [], b);
  }

  // A batch recorded is a batch of some contract.
  lemma {:induction false} SomeonesBatch(done: seq<Batch>, b: int)
    ensures Covered(WindowsOf(done), b) <==> exists c :: SeenBy(done, c, b)
  {
    if done != [] {
      var rest, last := done[..|done| - 1], done[|done| - 1];
      assert done == rest + [last];
      SomeonesBatch(rest, b);
      OneMoreBatch(rest, last, last.contract, b);
      forall c ensures SeenBy(done, c, b) <==> SeenBy(rest, c, b) || (last.contract == c && Covered([last.window], b)) {
        OneMoreBatch(rest, last, c, b);
      }
      if c :| SeenBy(rest, c, b) { assert SeenBy(done, c, b); }
    }
  }

  /** While nobody polls: a block has been seen by at least one contract exactly if it lies in a batch
      that succeeded of some poll of some contract. */
  lemma SeenBySomeoneIff(initial: nat, states: seq<State>, steps: seq<Step>, i: nat, b: nat)
    requires Run(initial, states, steps) && i < |states| && forall c :: Resting(states[i], c)
    ensures Covered(WindowsOf(states[i].done), b) <==> exists c :: SomeSees(PollsOf(states[i], c), b)
  {
    SomeonesBatch(states[i].done, b);
    forall c ensures SeenBy(states[i].done, c, b) <==> SomeSees(PollsOf(states[i], c), b) {
      BlockSeenIff(initial, states, steps, i, c, b);
    }
    if c :| SeenBy(states[i].done, c, b) { assert SomeSees(PollsOf(states[i], c), b); }
    if c :| SomeSees(PollsOf(states[i], c), b) { assert SeenBy(states[i].done, c, b); }
  }

  // Two contracts polling in lockstep up to block 3.
  lemma Lockstep(steps: seq<Step>) returns (states: seq<State>)
    requires steps == [Step("a", See(3)), Step("b", See(3)), Step("a", Load), Step("b", Load), Step("a", Fetch(true)),
                       Step("b", Fetch(true)), Step("b", Store), Step("a", Store)]
    ensures Run(0, states, steps) && states[8].cursor == 3
    ensures Resting(states[8], "a") && PollsOf(states[8], "a") == [Poll(0, 3, {})]
    ensures Resting(states[8], "b") && PollsOf(states[8], "b") == [Poll(0, 3, {})]
  {
    var s0 := State(0, map[], [], map[]);
    var s1 := PollingMachine.Next(s0, steps[0]);
    var s2 := PollingMachine.Next(s1, steps[1]);
    var s3 := PollingMachine.Next(s2, steps[2]);
    var s4 := PollingMachine.Next(s3, steps[3]);
    var s5 := PollingMachine.Next(s4, steps[4]);
    var s6 := PollingMachine.Next(s5, steps[5]);
    var s7 := PollingMachine.Next(s6, steps[6]);
    var s8 := PollingMachine.Next(s7, steps[7]);
    states := [s0, s1, s2, s3, s4, s5, s6, s7, s8];
  }

  lemma OnePollSees(states: seq<State>, steps: seq<Step>, c: string)
    requires Run(0, states, steps) && Resting(states[|steps|], c)
    requires PollsOf(states[|steps|], c) == [Poll(0, 3, {})] && states[|steps|].cursor == 3
    ensures SeesAll(0, states[|steps|], c)
  {
    var p := Poll(0, 3, {});
    forall b: nat | 0 < b <= 3 ensures SomeSees([p], b) { assert Sees([p][0], b); }
    SeesAllByPollsIff(0, states, steps, |steps|, c);
  }

  /** The last write overwrites the cursor that the other contract has just written, and yet both have
      seen every block. */
  lemma LockstepRun() returns (states: seq<State>, steps: seq<Step>)
    ensures Run(0, states, steps) && states[|steps|].cursor == 3
    ensures Interferes(steps, 6, 7)
    ensures SeesAll(0, states[|steps|], "a") && SeesAll(0, states[|steps|], "b")
  {
    steps := [Step("a", See(3)), Step("b", See(3)), Step("a", Load), Step("b", Load), Step("a", Fetch(true)),
              Step("b", Fetch(true)), Step("b", Store), Step("a", Store)];
    states := Lockstep(steps);
    OnePollSees(states, steps, "a");
    OnePollSees(states, steps, "b");
  }
}
